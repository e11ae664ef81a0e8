// The messages the game posts to its pages, before the connection or after it: the host gets them in the order they
// were posted, none lost and none repeated. And when there is a connection.
module HostPosts {
  import opened Wrappers
  import opened BoundedQueues
  import opened HostReplicationModel
  import opened HostReplicationProofs
  import HostAsked

  // ---- posts --------------------------------------------------------------------------------------------------

  // A receiver that writes down the page messages it gets.
  function Noted(log: seq<Message>, m: Message): seq<Message> {
    if m.PostWeb? then log + [m] else log
  }

  lemma NotedAbsorbs()
    ensures Absorbs(Noted, KeyOf)
  {
    hide KeyOf;
    forall log, a, b | KeyOf(a) == KeyOf(b) != "" ensures Noted(Noted(log, a), b) == Noted(log, b) {
      if a.PostWeb? { PostWebHasNoKey(a); }
    }
  }

  // Every message posted since the last restart to a view that existed then.
  function PostedAsked(actions: seq<Action>, n: nat): seq<Message>
    requires n <= |actions|
  {
    if n == 0 then []
    else match actions[n - 1]
      case ARestart => []
      case APostWeb(view, json) =>
        if view in HostAsked.IdsAsked(actions, n - 1) then PostedAsked(actions, n - 1) + [PostWeb(view, json)] else PostedAsked(actions, n - 1)
      case _ => PostedAsked(actions, n - 1)
  }

  // What the host of the current connection has handled.
  function Handled(worlds: seq<World>, actions: seq<Action>, n: nat): seq<Message>
    requires |worlds| == |actions| + 1 && n <= |actions|
  {
    if n == 0 then []
    else match actions[n - 1]
      case AConnect(_) => []
      case AHandle =>
        if worlds[n - 1].inbound.items == [] then Handled(worlds, actions, n - 1)
        else Noted(Handled(worlds, actions, n - 1), worlds[n - 1].inbound.items[0].value)
      case _ => Handled(worlds, actions, n - 1)
  }

  // No message since the last restart was too large to write.
  predicate AllFit(actions: seq<Action>, n: nat)
    requires n <= |actions|
  {
    n == 0 || actions[n - 1].ARestart? || (actions[n - 1] != ADeliver(true) && AllFit(actions, n - 1))
  }

  // What the host has handled and will, once both queues are delivered.
  function Arriving(w: World, handled: seq<Message>): seq<Message> {
    FoldQueue(Noted, if w.renderer.lifecycle == Running then FoldQueue(Noted, handled, w.inbound) else [], w.renderer.outbound)
  }

  // As long as the queue to the host is open everything posted is on its way.
  ghost predicate PostsOk(w: World, handled: seq<Message>, posted: seq<Message>) {
    !w.renderer.outbound.closed && (w.renderer.lifecycle == Running ==> w.hostUp) ==> Arriving(w, handled) == posted
  }

  // ---- one step --------------------------------------------------------------------------------------------------

  // Enqueuing changes the log by the message, or ends the connection.
  lemma EnqueueNotes(r: Renderer, m: Message, early: bool, log: seq<Message>)
    requires QueueOk(r) && (early ==> m.PostWeb?)
    ensures var s := Enqueue(r, m, early);
            && (r.outbound.closed ==> s.outbound.closed) && Stays(r, s)
            && (!s.outbound.closed ==>
                  && s.lifecycle == r.lifecycle
                  && FoldQueue(Noted, log, s.outbound) ==
                     if early || r.lifecycle == Running then Noted(FoldQueue(Noted, log, r.outbound), m) else FoldQueue(Noted, log, r.outbound))
  {
    hide KeyOf, FoldQueue, Noted, QueueOk;
    NotedAbsorbs();
    QueueFacts(r);
    PushMeaning(Noted, KeyOf, log, r.outbound, m, KeyOf(m));
    PushKeepsClosed(r.outbound, m, KeyOf(m));
  }

  lemma PushKeepsClosed(q: Queue<Message>, m: Message, key: string)
    ensures Pushed(q, m, key).closed == q.closed && (PushOutcome(q, key) == Closed <==> q.closed)
    ensures PushOutcome(q, key) == Full ==> |q.items| >= q.capacity
    ensures !q.closed ==> PushOutcome(q, key) == Full || Accepted(PushOutcome(q, key))
  {}

  // Only a full queue ends the connection, or the attempt to make one.
  predicate Stays(r: Renderer, s: Renderer) {
    && (|r.outbound.items| < r.outbound.capacity ==> s.lifecycle == r.lifecycle)
    && (s.lifecycle == r.lifecycle || (s.lifecycle == Failed && (r.lifecycle == Starting || r.lifecycle == Running)))
  }

  // The queue to the host, and what the host notes from it, is as it was unless the connection ended.
  predicate Quietly(r: Renderer, s: Renderer, log: seq<Message>) {
    && (r.outbound.closed ==> s.outbound.closed) && Stays(r, s)
    && (!s.outbound.closed ==> s.lifecycle == r.lifecycle && FoldQueue(Noted, log, s.outbound) == FoldQueue(Noted, log, r.outbound))
  }

  lemma SentQuietly(r: Renderer, u: Renderer, m: Message, log: seq<Message>)
    requires QueueOk(r) && u.lifecycle == r.lifecycle && u.outbound == r.outbound && !m.PostWeb?
    ensures Quietly(r, Send(u, m), log)
  {
    hide KeyOf, FoldQueue;
    SameQueueOk(r, u);
    EnqueueNotes(u, m, false, log);
  }

  lemma SameQueueOk(r: Renderer, s: Renderer)
    requires QueueOk(r) && s.lifecycle == r.lifecycle && s.outbound == r.outbound
    ensures QueueOk(s)
  {}

  lemma SameQuietly(r: Renderer, s: Renderer, log: seq<Message>)
    requires s.lifecycle == r.lifecycle && s.outbound == r.outbound
    ensures Quietly(r, s, log)
  {}

  lemma FlagQuietly(w: World, a: Action, log: seq<Message>)
    requires QueueOk(w.renderer) && (a.AResize? || a.ASetPointerInput? || a.ASetInputFocus? || a.ASetWindowActive? || a.AInject? || a.ASetInputTarget?)
    ensures Quietly(w.renderer, Next(w, a).renderer, log)
  {
    hide QueueOk, Enqueue, Quietly, FindView;
    var r := w.renderer;
    SameQuietly(r, r, log);
    match a
    case AResize(width, height) => SentQuietly(r, r.(width := width, height := height), Resize(width, height), log);
    case ASetPointerInput(enabled) => SentQuietly(r, r.(pointerInput := enabled), PointerInput(enabled), log);
    case ASetInputFocus(focused) => SentQuietly(r, r.(focus := focused), Focus(focused), log);
    case ASetWindowActive(active) => SentQuietly(r, r.(windowActive := active), WindowActive(active), log);
    case AInject(input) => SentQuietly(r, r, Inject(input), log);
    case ASetInputTarget(id) => SentQuietly(r, r.(inputTarget := id), SetInputTarget(id), log);
  }

  lemma ViewportQuietly(r: Renderer, a: Action, log: seq<Message>)
    requires QueueOk(r)
    ensures a.ASetViewport? ==> Quietly(r, SetViewport(r, a.viewportWidth, a.viewportHeight), log)
    ensures a.AResetPresentation? ==> Quietly(r, ResetPresentation(r), log)
  {
    hide QueueOk, Enqueue, Quietly;
    SameQuietly(r, r, log);
    var u := BeginPresentation(if a.ASetViewport? then r.(viewportWidth := a.viewportWidth, viewportHeight := a.viewportHeight) else r);
    SentQuietly(r, u, Viewport(u.viewportWidth, u.viewportHeight, u.epoch), log);
  }

  lemma HiddenQuietly(r: Renderer, id: string, hidden: bool, settle: bool, log: seq<Message>)
    requires QueueOk(r)
    ensures Quietly(r, SetViewHidden(r, id, hidden, settle), log)
  {
    hide QueueOk, Enqueue, Quietly, NoneVisible, Find, Mirrors;
    SameQuietly(r, r, log);
    var i := FindView(r, id);
    if i < |r.views| {
      var settled := r.views[i].(settleColdOpen := !hidden && settle);
      SameQuietly(r, r.(views := r.views[i := settled]), log);
      var views := r.views[i := settled.(mirror := settled.mirror.(hidden := hidden))];
      var p := Presented(r.(views := views, allHidden := NoneVisible(views)), hidden);
      SentQuietly(r, p, SetHidden(id, hidden, p.epoch, !hidden && settle), log);
    }
  }

  lemma OtherQuietly(w: World, a: Action, log: seq<Message>)
    requires Possible(w, a) && QueueOk(w.renderer) && (a.ACreateOrNavigate? || a.ASetViewOrder? || a.ADestroyView?)
    ensures Quietly(w.renderer, Next(w, a).renderer, log)
  {
    hide QueueOk, Enqueue, Quietly, NoneVisible, Find, Mirrors, NavigatedRecs, Erased;
    var r := w.renderer;
    SameQuietly(r, r, log);
    match a
    case ACreateOrNavigate(id, entry, height, legacy) =>
      var n := AtLeastOne(height);
      SentQuietly(r, r.(views := NavigatedRecs(r.views, id, entry, legacy, n), inputTarget := if r.inputTarget == "" then id else r.inputTarget),
                  Navigate(id, entry, n, legacy), log);
    case ASetViewOrder(id, order) =>
      var i := FindView(r, id);
      if i < |r.views| {
        SentQuietly(r, r.(views := r.views[i := r.views[i].(mirror := r.views[i].mirror.(order := order))]), SetOrder(id, order), log);
      }
    case ADestroyView(id) =>
      var views := Erased(r.views, id);
      var u := r.(views := views, inputTarget := FirstTarget(r.inputTarget, views, id), allHidden := NoneVisible(views));
      SentQuietly(r, if u.allHidden then u.(framesEpoch := u.epoch, framesAccept := false) else u, DestroyView(id), log);
  }

  lemma SetterQuietly(w: World, a: Action, log: seq<Message>)
    requires RendererOk(w.renderer) && Possible(w, a) && IsSetter(a) && !a.APostWeb?
    ensures Quietly(w.renderer, Next(w, a).renderer, log)
  {
    assert QueueOk(w.renderer);
    hide RendererOk, QueueOk, Quietly;
    var r := w.renderer;
    match a
    case ASetViewport(_, _) => ViewportQuietly(r, a, log);
    case AResetPresentation => ViewportQuietly(r, a, log);
    case ASetViewHidden(view, hidden, settle) => HiddenQuietly(r, view, hidden, settle, log);
    case ACreateOrNavigate(_, _, _, _) => OtherQuietly(w, a, log);
    case ASetViewOrder(_, _) => OtherQuietly(w, a, log);
    case ADestroyView(_) => OtherQuietly(w, a, log);
    case _ => FlagQuietly(w, a, log);
  }

  // ---- every action keeps it ---------------------------------------------------------------------------------------

  lemma SetterKeepsPosts(w: World, a: Action, handled: seq<Message>, posted: seq<Message>)
    requires Converging(w) && Possible(w, a) && IsSetter(a) && !a.APostWeb? && PostsOk(w, handled, posted)
    ensures PostsOk(Next(w, a), handled, posted)
  {
    SetterOnlyRenders(w, a);
    hide Next, FoldQueue, RendererOk;
    SetterQuietly(w, a, if w.renderer.lifecycle == Running then FoldQueue(Noted, handled, w.inbound) else []);
  }

  lemma SetterOnlyRenders(w: World, a: Action)
    requires IsSetter(a) && Possible(w, a)
    ensures Next(w, a) == w.(renderer := Next(w, a).renderer)
  {}

  lemma PostKeepsPosts(w: World, view: string, json: string, handled: seq<Message>, posted: seq<Message>)
    requires Converging(w) && PostsOk(w, handled, posted)
    ensures PostsOk(w.(renderer := SendMessageToWeb(w.renderer, view, json)), handled,
                    if view in HostAsked.Ids(w.renderer.views) then posted + [PostWeb(view, json)] else posted)
  {
    HostAsked.FindIsRecOf(w.renderer.views, view);
    assert QueueOk(w.renderer);
    hide FoldQueue, Enqueue, Find, Mirrors, QueueOk, RendererOk;
    EnqueueNotes(w.renderer, PostWeb(view, json), true, if w.renderer.lifecycle == Running then FoldQueue(Noted, handled, w.inbound) else []);
  }

  lemma {:induction false} NoPosts(log: seq<Message>, values: seq<Message>)
    requires forall m | m in values :: !m.PostWeb?
    ensures Fold(Noted, log, values) == log
    decreases |values|
  {
    if values != [] {
      assert values[|values| - 1] in values;
      NoPosts(log, values[..|values| - 1]);
    }
  }

  lemma {:induction false} SnapshotHasNoPosts(views: seq<ViewRec>, epoch: nat)
    ensures forall item | item in ViewSnapshot(views, epoch) :: !item.value.PostWeb?
  {
    if views != [] { SnapshotHasNoPosts(views[1..], epoch); }
  }

  lemma {:induction false} ItemsAreValues(items: seq<Item<Message>>)
    requires forall item | item in items :: !item.value.PostWeb?
    ensures forall m | m in Values(items) :: !m.PostWeb?
  {
    forall m | m in Values(items) ensures !m.PostWeb? {
      var i :| 0 <= i < |items| && Values(items)[i] == m;
      assert items[i] in items;
    }
  }

  lemma BootstrapHasNoPosts(r: Renderer)
    ensures forall m | m in Values(Bootstrap(r)) :: !m.PostWeb?
  {
    hide ViewSnapshot, Values;
    SnapshotHasNoPosts(r.views, r.epoch);
    BootstrapItems(r);
    ItemsAreValues(Bootstrap(r));
  }

  lemma BootstrapItems(r: Renderer)
    requires forall item | item in ViewSnapshot(r.views, r.epoch) :: !item.value.PostWeb?
    ensures forall item | item in Bootstrap(r) :: !item.value.PostWeb?
  {
    hide ViewSnapshot;
  }

  // A connection begins with everything posted before it, after the snapshot.
  lemma ConnectKeepsPosts(w: World, process: Host, handled: seq<Message>, posted: seq<Message>)
    requires Converging(w) && Possible(w, AConnect(process)) && PostsOk(w, handled, posted)
    ensures PostsOk(Next(w, AConnect(process)), [], posted)
  {
    hide FoldQueue, Fold, Bootstrap, RendererOk, Values;
    var r := w.renderer;
    if CanPrepend(r.outbound, Bootstrap(r)) {
      PrependMeaning(Noted, [], r.outbound, Bootstrap(r));
      BootstrapHasNoPosts(r);
      NoPosts([], Values(Bootstrap(r)));
      EmptyNotes([]);
    }
  }

  lemma EmptyNotes(log: seq<Message>)
    ensures FoldQueue(Noted, log, Queue(MAX_GAME_MESSAGES, [], false)) == log
    ensures forall q: Queue<Message> | q.items == [] :: FoldQueue(Noted, log, q) == log
  {}

  lemma DeliverKeepsPosts(w: World, handled: seq<Message>, posted: seq<Message>)
    requires Converging(w) && Possible(w, ADeliver(false)) && PostsOk(w, handled, posted)
    ensures PostsOk(Deliver(w, false), handled, posted)
  {
    hide KeyOf, FoldQueue, RendererOk, Noted;
    var q, item := w.renderer.outbound, w.renderer.outbound.items[0];
    if w.renderer.lifecycle == Running && w.hostUp {
      NotedAbsorbs();
      PopMeaning(Noted, FoldQueue(Noted, handled, w.inbound), q);
      PushMeaning(Noted, KeyOf, handled, w.inbound, item.value, KeyOf(item.value));
      PushKeepsClosed(w.inbound, item.value, KeyOf(item.value));
    }
  }

  lemma HandleKeepsPosts(w: World, handled: seq<Message>, posted: seq<Message>)
    requires PostsOk(w, handled, posted)
    ensures PostsOk(Handle(w), if w.inbound.items == [] then handled else Noted(handled, w.inbound.items[0].value), posted)
  {
    hide FoldQueue, Noted, Apply;
    if w.inbound.items != [] { PopMeaning(Noted, handled, w.inbound); }
  }

  lemma EndKeepsPosts(w: World, a: Action, handled: seq<Message>, posted: seq<Message>)
    requires Converging(w) && PostsOk(w, handled, posted) && (a.AStart? || a.ALost? || a.AStop? || a.ARestart?)
    ensures PostsOk(Next(w, a), handled, if a.ARestart? then [] else posted)
  {
    assert QueueOk(w.renderer);
    hide FoldQueue, RendererOk;
    if a.ARestart? { EmptyNotes([]); }
  }

  lemma StartPosts(w: World, width: nat, height: nat)
    requires w.renderer == Fresh(width, height)
    ensures PostsOk(w, [], [])
  {
    EmptyNotes([]);
  }

  // In every run, as long as the queue to the host is open, what the current host has handled of them, followed by
  // what waits in the two queues, is every page message posted since the last restart, in the order posted.
  lemma {:induction false} PostsAreOnTheirWay(worlds: seq<World>, actions: seq<Action>, n: nat)
    requires Execution(worlds, actions) && n <= |actions| && AllFit(actions, n)
    ensures PostsOk(worlds[n], Handled(worlds, actions, n), PostedAsked(actions, n))
  {
    hide Converging, PostsOk, Leads, HostAsked.IdsAsked, HostAsked.Ids, Handled, Fresh;
    if n == 0 {
      var width, height :| worlds[0].renderer == Fresh(width, height);
      StartPosts(worlds[0], width, height);
      NothingHandled(worlds, actions);
    } else {
      ExecutionConverges(worlds, actions, n - 1);
      if actions[n - 1].ARestart? {
        RestartEmpties(worlds[n - 1], worlds[n], Handled(worlds, actions, n));
      } else {
        PostsAreOnTheirWay(worlds, actions, n - 1);
        HostAsked.IdsAreAsAsked(worlds, actions, n - 1);
        StepKeepsPosts(worlds, actions, n - 1);
      }
    }
  }

  lemma NothingHandled(worlds: seq<World>, actions: seq<Action>)
    requires |worlds| == |actions| + 1
    ensures Handled(worlds, actions, 0) == []
  {}

  lemma RestartEmpties(w: World, v: World, handled: seq<Message>)
    requires Converging(w) && Leads(w, ARestart, v)
    ensures PostsOk(v, handled, [])
  {
    assert QueueOk(w.renderer);
    hide RendererOk, FoldQueue;
    EmptyNotes([]);
  }

  lemma StepKeepsPosts(worlds: seq<World>, actions: seq<Action>, k: nat)
    requires |worlds| == |actions| + 1 && k < |actions| && Leads(worlds[k], actions[k], worlds[k + 1]) && AllFit(actions, k + 1) && !actions[k].ARestart?
    requires Converging(worlds[k]) && HostAsked.Ids(worlds[k].renderer.views) == HostAsked.IdsAsked(actions, k)
    requires PostsOk(worlds[k], Handled(worlds, actions, k), PostedAsked(actions, k))
    ensures PostsOk(worlds[k + 1], Handled(worlds, actions, k + 1), PostedAsked(actions, k + 1))
  {
    hide Converging, PostsOk, HostAsked.Ids, HostAsked.IdsAsked, Noted;
    var w, a, handled, posted := worlds[k], actions[k], Handled(worlds, actions, k), PostedAsked(actions, k);
    match a
    case APostWeb(view, json) => PostKeepsPosts(w, view, json, handled, posted);
    case AConnect(process) => ConnectKeepsPosts(w, process, handled, posted);
    case ADeliver(oversized) => DeliverKeepsPosts(w, handled, posted);
    case AHandle => HandleKeepsPosts(w, handled, posted);
    case AStart(_) => EndKeepsPosts(w, a, handled, posted);
    case ALost => EndKeepsPosts(w, a, handled, posted);
    case AStop => EndKeepsPosts(w, a, handled, posted);
    case _ => SetterKeepsPosts(w, a, handled, posted);
  }

  // So while connected no page message is lost, repeated or overtaken, whether it was posted before the connection or
  // after: what the host has handled, then what is on its way, is what was posted; and with both queues empty the host
  // has handled exactly that.
  lemma PostsArriveInOrder(worlds: seq<World>, actions: seq<Action>, n: nat)
    requires Execution(worlds, actions) && n <= |actions| && AllFit(actions, n)
    requires worlds[n].renderer.lifecycle == Running && worlds[n].hostUp
    ensures var w, handled := worlds[n], Handled(worlds, actions, n);
            && Fold(Noted, handled, Values(w.inbound.items) + Values(w.renderer.outbound.items)) == PostedAsked(actions, n)
            && (w.inbound.items == [] && w.renderer.outbound.items == [] ==> handled == PostedAsked(actions, n))
  {
    PostsAreOnTheirWay(worlds, actions, n);
    ExecutionConverges(worlds, actions, n);
    var w, handled := worlds[n], Handled(worlds, actions, n);
    OpenWhileRunning(w);
    hide Execution, Converging, PostedAsked, Handled;
    FoldAppend(Noted, handled, Values(w.inbound.items), Values(w.renderer.outbound.items));
  }

  lemma OpenWhileRunning(w: World)
    requires Converging(w) && w.renderer.lifecycle == Running
    ensures !w.renderer.outbound.closed
  {}

  // ---- when there is a connection --------------------------------------------------------------------------------

  // The messages of a snapshot.
  lemma BootstrapSize(r: Renderer)
    ensures |Bootstrap(r)| == 5 + 3 * |r.views| + if r.inputTarget == "" then 0 else 1
  {
    ViewSnapshotSize(r.views, r.epoch);
  }

  lemma {:induction false} ViewSnapshotSize(views: seq<ViewRec>, epoch: nat)
    ensures |ViewSnapshot(views, epoch)| == 3 * |views|
  {
    if views != [] { ViewSnapshotSize(views[1..], epoch); }
  }

  predicate LifecycleMoves(r: Renderer, a: Action, s: Renderer, snapshot: nat) {
    && (s.lifecycle == Stopped <==> a.AStop? || a.ARestart? || (r.lifecycle == Stopped && !(a.AStart? && a.adapter)))
    && (a.AStart? && a.adapter && r.lifecycle == Stopped ==> s.lifecycle == Starting)
    && (a.AConnect? ==> (s.lifecycle == Running <==> r.lifecycle == Starting && !r.outbound.closed && snapshot + |r.outbound.items| <= 512))
    && (!a.AConnect? && s.lifecycle == Running ==> r.lifecycle == Running)
    && (a.ARestart? ==> s.outbound.items == [] && !s.outbound.closed)
    && ((IsSetter(a) && |r.outbound.items| < 512) || a.AHandle? || (a.AStart? && r.lifecycle != Stopped) ==> s.lifecycle == r.lifecycle)
  }

  lemma LifecycleStep(w: World, a: Action)
    requires Converging(w) && Possible(w, a)
    ensures LifecycleMoves(w.renderer, a, Next(w, a).renderer, |Bootstrap(w.renderer)|)
  {
    hide Next, LifecycleMoves, Converging, Bootstrap, Possible;
    if IsSetter(a) { SetterLifecycle(w, a); } else { ConnectionLifecycle(w, a); }
  }

  lemma SetterLifecycle(w: World, a: Action)
    requires Converging(w) && Possible(w, a) && IsSetter(a)
    ensures LifecycleMoves(w.renderer, a, Next(w, a).renderer, |Bootstrap(w.renderer)|)
  {
    hide Next, Possible, Bootstrap, FoldQueue, RendererOk, QueueOk, Converging, LifecycleMoves, Stays, Quietly;
    RightCapacity(w);
    if a.APostWeb? {
      PostIsTheCall(w, a);
      PostStays(w.renderer, a.receiver, a.json);
    } else {
      SetterQuietly(w, a, []);
      QuietlyStays(w.renderer, Next(w, a).renderer, []);
    }
    StayingMoves(w.renderer, a, Next(w, a).renderer, |Bootstrap(w.renderer)|);
  }

  lemma QuietlyStays(r: Renderer, s: Renderer, log: seq<Message>)
    requires Quietly(r, s, log)
    ensures Stays(r, s)
  {
    hide FoldQueue;
  }

  lemma StayingMoves(r: Renderer, a: Action, s: Renderer, snapshot: nat)
    requires IsSetter(a) && Stays(r, s) && r.outbound.capacity == 512
    ensures LifecycleMoves(r, a, s, snapshot)
  {}

  lemma PostIsTheCall(w: World, a: Action)
    requires a.APostWeb?
    ensures Next(w, a).renderer == SendMessageToWeb(w.renderer, a.receiver, a.json)
  {}

  lemma RightCapacity(w: World)
    requires Converging(w)
    ensures RendererOk(w.renderer) && QueueOk(w.renderer) && w.renderer.outbound.capacity == 512 && w.renderer.lifecycle != Stopping
  {}

  lemma ConnectionLifecycle(w: World, a: Action)
    requires Converging(w) && Possible(w, a) && !IsSetter(a)
    ensures LifecycleMoves(w.renderer, a, Next(w, a).renderer, |Bootstrap(w.renderer)|)
  {
    hide Next, Possible, Converging, QueueOk, RendererOk, Deliver, Handle, Connect, Bootstrap;
    RightCapacity(w);
    HostAsked.CallOf(w, a);
    match a
    case AConnect(_) => ConnectLifecycle(w, a);
    case ADeliver(oversized) => DeliverStays(w, oversized);
    case AHandle => HandleStays(w);
    case _ =>
  }

  lemma ConnectLifecycle(w: World, a: Action)
    requires Possible(w, a) && a.AConnect? && w.renderer.outbound.capacity == 512
    ensures w.renderer.lifecycle != Stopped && w.renderer.lifecycle != Running
    ensures var r, s := w.renderer, Connect(w.renderer);
            && s.lifecycle != Stopped
            && (s.lifecycle == Running <==> r.lifecycle == Starting && !r.outbound.closed && |Bootstrap(r)| + |r.outbound.items| <= 512)
  {
    hide Bootstrap;
  }

  lemma HandleStays(w: World)
    ensures Handle(w).renderer == w.renderer
  {}

  lemma PostStays(r: Renderer, view: string, json: string)
    requires QueueOk(r)
    ensures Stays(r, SendMessageToWeb(r, view, json))
  {
    hide FindView, QueueOk, FoldQueue, KeyOf;
    EnqueueNotes(r, PostWeb(view, json), true, []);
  }

  lemma DeliverStays(w: World, oversized: bool)
    requires w.renderer.outbound.items != []
    ensures var r, s := w.renderer, Deliver(w, oversized).renderer;
            s.lifecycle == r.lifecycle || (s.lifecycle == Failed && (r.lifecycle == Starting || r.lifecycle == Running))
  {
    hide Pushed, PushOutcome, KeyOf;
  }

  // In every run: a start with the adapter known begins an attempt, and a connection makes it the running one exactly
  // when the queue is open and the snapshot fits; it ends only with a stop, a restart, a loss, a failed delivery or a
  // full queue. A restart leaves the queue empty and open.
  lemma ConnectedExactlyWhen(worlds: seq<World>, actions: seq<Action>, k: nat)
    requires Execution(worlds, actions) && k < |actions|
    ensures LifecycleMoves(worlds[k].renderer, actions[k], worlds[k + 1].renderer,
                           5 + 3 * |HostAsked.IdsAsked(actions, k)| + if HostAsked.TargetAsked(actions, k) == "" then 0 else 1)
  {
    hide LifecycleMoves, Converging, Next, Possible;
    ExecutionConverges(worlds, actions, k);
    assert Leads(worlds[k], actions[k], worlds[k + 1]);
    LifecycleStep(worlds[k], actions[k]);
    BootstrapSize(worlds[k].renderer);
    HostAsked.RendererIsAsAsked(worlds, actions, k);
    HostAsked.IdsAt(worlds[k].renderer.views);
  }

  // ---- cold opens --------------------------------------------------------------------------------------------------

  lemma {:induction false} SnapshotShows(views: seq<ViewRec>, epoch: nat, i: nat)
    requires i < |views|
    ensures Plain(SetHidden(views[i].mirror.id, views[i].mirror.hidden, epoch, views[i].settleColdOpen)) in ViewSnapshot(views, epoch)
    decreases |views|
  {
    var v := views[0].mirror;
    assert ViewSnapshot(views, epoch)[1] == Plain(SetHidden(v.id, v.hidden, epoch, views[0].settleColdOpen));
    if i > 0 {
      SnapshotShows(views[1..], epoch, i - 1);
      var x := Plain(SetHidden(views[i].mirror.id, views[i].mirror.hidden, epoch, views[i].settleColdOpen));
      var k :| 0 <= k < |ViewSnapshot(views[1..], epoch)| && ViewSnapshot(views[1..], epoch)[k] == x;
      assert ViewSnapshot(views, epoch)[k + 3] == x;
    }
  }

  // A connection queues, for every view, whether it is hidden, under the current epoch, and whether its cold open is to
  // be settled, as last asked for.
  lemma ConnectionSettlesAsAsked(worlds: seq<World>, actions: seq<Action>, k: nat, id: string)
    requires Execution(worlds, actions) && k < |actions| && actions[k].AConnect? && worlds[k + 1].renderer.lifecycle == Running
    requires HostAsked.ViewAsked(actions, k, id).Some?
    ensures var v := HostAsked.ViewAsked(actions, k, id).value;
            Plain(SetHidden(id, v.mirror.hidden, HostAsked.EpochAsked(actions, k, HostAsked.Initial(worlds)), v.settleColdOpen))
            in worlds[k + 1].renderer.outbound.items
  {
    hide HostAsked.EpochAsked, HostAsked.ViewAsked, Converging, ViewSnapshot;
    var r := worlds[k].renderer;
    HostAsked.ViewIsAsAsked(worlds, actions, k, id);
    HostAsked.RendererIsAsAsked(worlds, actions, k);
    HostAsked.FindIsRecOf(r.views, id);
    SnapshotShows(r.views, r.epoch, Find(Mirrors(r.views), id));
    assert Leads(worlds[k], actions[k], worlds[k + 1]);
    ConnectionQueues(worlds[k], actions[k]);
  }

  lemma ConnectionQueues(w: World, a: Action)
    requires Possible(w, a) && a.AConnect? && Next(w, a).renderer.lifecycle == Running
    ensures forall x | x in ViewSnapshot(w.renderer.views, w.renderer.epoch) :: x in Next(w, a).renderer.outbound.items
  {
    hide ViewSnapshot;
  }
}
