// The host converges to the renderer: while the connection runs, what the host holds followed by what is
// still queued on either side of the pipe is the renderer's own state, whenever the connection was made.
module HostReplicationProofs {
  import opened Wrappers
  import opened BoundedQueues
  import opened HostReplicationModel

  // The renderer's state in the host's terms.
  function Mirror(r: Renderer): Host {
    Host(r.width, r.height, r.viewportWidth, r.viewportHeight, r.epoch, r.pointerInput, r.windowActive, r.focus,
         Mirrors(r.views), r.inputTarget)
  }

  // `inbound` is the host's own coalescing queue behind the pipe; `hostUp` turns false when it overflows.
  datatype World = World(renderer: Renderer, inbound: Queue<Message>, host: Host, hostUp: bool)

  datatype Action =
    | ACreateOrNavigate(id: string, entry: string, height: nat, legacy: bool)
    | ASetInputTarget(target: string)
    | AResize(width: nat, height: nat)
    | ASetViewport(viewportWidth: nat, viewportHeight: nat)
    | ASetPointerInput(enabled: bool)
    | AResetPresentation
    | APostWeb(receiver: string, json: string)
    | ASetInputFocus(focused: bool)
    | ASetWindowActive(active: bool)
    | ASetViewHidden(view: string, hidden: bool, settle: bool)
    | ASetViewOrder(orderedView: string, order: int)
    | ADestroyView(destroyed: string)
    | AInject(input: Input)
    | AStart(adapter: bool)
    | AConnect(process: Host)
    | ADeliver(oversized: bool)
    | AHandle
    | ALost
    | AStop
    | ARestart

  // View ids are not empty. A new host process has no views. Only page and input messages can be too large to write.
  predicate Possible(w: World, a: Action) {
    match a
    case ACreateOrNavigate(id, _, _, _) => id != ""
    case AConnect(process) => process.views == [] && process.target == "" && w.renderer.lifecycle != Stopped && w.renderer.lifecycle != Running
    case ADeliver(oversized) =>
      w.renderer.outbound.items != [] &&
      (oversized ==> w.renderer.outbound.items[0].value.PostWeb? || w.renderer.outbound.items[0].value.Inject?)
    case _ => true
  }

  function Deliver(w: World, oversized: bool): World
    requires w.renderer.outbound.items != []
  {
    var item := w.renderer.outbound.items[0];
    var r := w.renderer.(outbound := Popped(w.renderer.outbound));
    if r.lifecycle != Running || !w.hostUp then w.(renderer := SignalDead(r))
    else if oversized then w.(renderer := r)
    else
      var key := KeyOf(item.value);
      w.(renderer := r, inbound := Pushed(w.inbound, item.value, key), hostUp := PushOutcome(w.inbound, key) != Full)
  }

  function Handle(w: World): World {
    if w.inbound.items == [] then w
    else w.(inbound := Popped(w.inbound), host := Apply(w.host, w.inbound.items[0].value))
  }

  function Next(w: World, a: Action): World
    requires Possible(w, a)
  {
    var r := w.renderer;
    match a
    case ACreateOrNavigate(id, entry, height, legacy) => w.(renderer := CreateOrNavigateView(r, id, entry, height, legacy))
    case ASetInputTarget(id) => w.(renderer := SetInputTargetView(r, id))
    case AResize(width, height) => w.(renderer := SetSize(r, width, height))
    case ASetViewport(width, height) => w.(renderer := SetViewport(r, width, height))
    case ASetPointerInput(enabled) => w.(renderer := SetPointerInputEnabled(r, enabled))
    case AResetPresentation => w.(renderer := ResetPresentation(r))
    case APostWeb(receiver, json) => w.(renderer := SendMessageToWeb(r, receiver, json))
    case ASetInputFocus(focused) => w.(renderer := SetInputFocus(r, focused))
    case ASetWindowActive(active) => w.(renderer := SetWindowActive(r, active))
    case ASetViewHidden(view, hidden, settle) => w.(renderer := SetViewHidden(r, view, hidden, settle))
    case ASetViewOrder(view, order) => w.(renderer := SetViewOrder(r, view, order))
    case ADestroyView(view) => w.(renderer := DestroyOne(r, view))
    case AInject(input) => w.(renderer := Send(r, Inject(input)))
    case AStart(adapter) => w.(renderer := Start(r, adapter))
    case AConnect(process) => World(Connect(r), Queue(MAX_GAME_MESSAGES, [], false), process, true)
    case ADeliver(oversized) => Deliver(w, oversized)
    case AHandle => Handle(w)
    case ALost => w.(renderer := SignalDead(r))
    case AStop => w.(renderer := Stop(r))
    case ARestart => w.(renderer := RestartAfterFailure(r))
  }

  // ---- invariants ------------------------------------------------------------------------------

  predicate UniqueIds(views: seq<HostView>) {
    forall i, j | 0 <= i < j < |views| :: views[i].id != views[j].id
  }

  // Every stored size is at least one pixel.
  predicate SizesOk(r: Renderer) {
    && r.width > 0 && r.height > 0 && r.viewportWidth > 0 && r.viewportHeight > 0
    && forall i | 0 <= i < |r.views| :: r.views[i].mirror.logicalHeight > 0
  }

  // Frames are accepted exactly while some view is visible, under the current epoch.
  predicate PresentationOk(r: Renderer) {
    r.allHidden == NoneVisible(r.views) && r.framesEpoch == r.epoch && r.framesAccept == !r.allHidden
  }

  // Stop is one step, so no state is left in Stopping. Before a connection the queue holds page messages only; after one it is closed until it is reset.
  ghost predicate QueueOk(r: Renderer) {
    && Bounded(r.outbound) && r.outbound.capacity == MAX_OUTBOUND && Keyed(r.outbound, KeyOf)
    && (r.lifecycle == Running ==> !r.outbound.closed)
    && r.lifecycle != Stopping && (r.lifecycle == Failed ==> r.outbound.closed)
    && (r.lifecycle != Running && !r.outbound.closed ==>
          forall i | 0 <= i < |r.outbound.items| :: r.outbound.items[i].value.PostWeb?)
  }

  // Some view gets the input as long as there is one.
  predicate TargetOk(target: string, views: seq<HostView>) {
    && (forall i | 0 <= i < |views| :: views[i].id != "")
    && if views == [] then target == "" else HasId(views, target)
  }

  predicate HasId(views: seq<HostView>, id: string) {
    exists i :: 0 <= i < |views| && views[i].id == id
  }

  predicate ShapeOk(r: Renderer) {
    UniqueIds(Mirrors(r.views)) && SizesOk(r) && PresentationOk(r) && TargetOk(r.inputTarget, Mirrors(r.views))
  }

  ghost predicate RendererOk(r: Renderer) {
    ShapeOk(r) && QueueOk(r)
  }

  // What the receiver behind `base` will hold once the outbound queue is delivered.
  predicate Tracks(r: Renderer, base: Host) {
    r.lifecycle == Running ==> FoldQueue(Apply, base, r.outbound) == Mirror(r)
  }

  function Base(w: World): Host {
    FoldQueue(Apply, w.host, w.inbound)
  }

  ghost predicate Converging(w: World) {
    && RendererOk(w.renderer)
    && Keyed(w.inbound, KeyOf) && !w.inbound.closed
    && (w.hostUp ==> Tracks(w.renderer, Base(w)))
  }

  // ---- coalescing is harmless for the host ---------------------------------------------------------

  // Two messages share a key only when they set the same thing.
  predicate SetSame(a: Message, b: Message) {
    || (a.Resize? && b.Resize?)
    || (a.Focus? && b.Focus?)
    || (a.SetHidden? && b.SetHidden? && a.view == b.view)
    || (a.SetOrder? && b.SetOrder? && a.orderedView == b.orderedView)
    || (a == Inject(MouseMove) && b == a)
  }

  lemma KeyForm(m: Message)
    requires KeyOf(m) != ""
    ensures match m
            case Resize(_, _) => KeyOf(m) == "resize"
            case Focus(_) => KeyOf(m) == "focus"
            case SetHidden(view, _, _, _) => KeyOf(m) == "setHidden:" + view && KeyOf(m)[3] == 'H'
            case SetOrder(view, _) => KeyOf(m) == "setOrder:" + view && KeyOf(m)[3] == 'O'
            case _ => m == Inject(MouseMove) && KeyOf(m) == "mouse.move"
  {
    match m
    case SetHidden(view, _, _, _) => assert "setHidden" + ":" == "setHidden:"; assert ("setHidden:" + view)[3] == 'H';
    case SetOrder(view, _) => assert "setOrder" + ":" == "setOrder:"; assert ("setOrder:" + view)[3] == 'O';
    case Resize(_, _) =>
    case Focus(_) =>
    case _ =>
  }

  lemma SameKey(a: Message, b: Message)
    requires KeyOf(a) == KeyOf(b) != ""
    ensures SetSame(a, b)
  {
    hide KeyOf;
    KeyForm(a);
    KeyForm(b);
    assert "resize"[0] == 'r' && "focus"[0] == 'f' && "mouse.move"[0] == 'm';
    if a.SetHidden? && b.SetHidden? {
      assert ("setHidden:" + a.view)[10..] == a.view && ("setHidden:" + b.view)[10..] == b.view;
    }
    if a.SetOrder? && b.SetOrder? {
      assert ("setOrder:" + a.orderedView)[9..] == a.orderedView && ("setOrder:" + b.orderedView)[9..] == b.orderedView;
    }
    if a.SetHidden? { assert ("setHidden:" + a.view)[0] == 's'; }
    if b.SetHidden? { assert ("setHidden:" + b.view)[0] == 's'; }
    if a.SetOrder? { assert ("setOrder:" + a.orderedView)[0] == 's'; }
    if b.SetOrder? { assert ("setOrder:" + b.orderedView)[0] == 's'; }
  }

  lemma FindUpdated(views: seq<HostView>, i: nat, v: HostView, id: string)
    requires i < |views| && v.id == views[i].id
    ensures Find(views[i := v], id) == Find(views, id)
  {
    var j, k := Find(views, id), Find(views[i := v], id);
    assert j < |views| ==> views[i := v][j].id == id;
    assert k < |views| ==> views[k].id == id;
  }

  lemma LaterHiddenAbsorbs(views: seq<HostView>, id: string, a: bool, b: bool)
    ensures WithHidden(WithHidden(views, id, a), id, b) == WithHidden(views, id, b)
  {
    hide Find;
    var i := Find(views, id);
    if i < |views| { FindUpdated(views, i, views[i].(hidden := a), id); }
  }

  lemma LaterOrderAbsorbs(views: seq<HostView>, id: string, a: int, b: int)
    ensures WithOrder(WithOrder(views, id, a), id, b) == WithOrder(views, id, b)
  {
    hide Find;
    var i := Find(views, id);
    if i < |views| { FindUpdated(views, i, views[i].(order := a), id); }
  }

  lemma LaterAbsorbs(h: Host, a: Message, b: Message)
    requires SetSame(a, b)
    ensures Apply(Apply(h, a), b) == Apply(h, b)
  {
    hide WithHidden, WithOrder, Navigated, Without;
    if a.SetHidden? {
      LaterHiddenAbsorbs(h.views, a.view, a.hidden, b.hidden);
    } else if a.SetOrder? {
      LaterOrderAbsorbs(h.views, a.orderedView, a.order, b.order);
    }
  }

  lemma HostAbsorbs()
    ensures Absorbs(Apply, KeyOf)
  {
    hide KeyOf;
    forall h, a, b | KeyOf(a) == KeyOf(b) != "" ensures Apply(Apply(h, a), b) == Apply(h, b) {
      SameKey(a, b);
      LaterAbsorbs(h, a, b);
    }
  }

  // ---- one message sent ------------------------------------------------------------------------

  lemma ShapeIgnoresQueue(r: Renderer, s: Renderer)
    requires s == r.(lifecycle := s.lifecycle, outbound := s.outbound)
    ensures Mirror(s) == Mirror(r) && ShapeOk(s) == ShapeOk(r)
  {}

  // An enqueued message is lost only when the connection is, or was never there.
  lemma EnqueueTracks(r: Renderer, m: Message, early: bool, base: Host)
    requires QueueOk(r) && (early ==> m.PostWeb?)
    ensures var s := Enqueue(r, m, early);
            && QueueOk(s) && s == r.(lifecycle := s.lifecycle, outbound := s.outbound)
            && (s.lifecycle == Running ==>
                  r.lifecycle == Running && FoldQueue(Apply, base, s.outbound) == Apply(FoldQueue(Apply, base, r.outbound), m))
  {
    hide KeyOf, Apply, FoldQueue, QueueOk;
    HostAbsorbs();
    EnqueueOk(r, m, early);
    assert Keyed(r.outbound, KeyOf) && (r.lifecycle == Running ==> !r.outbound.closed) by { QueueFacts(r); }
    PushMeaning(Apply, KeyOf, base, r.outbound, m, KeyOf(m));
  }

  lemma QueueFacts(r: Renderer)
    requires QueueOk(r)
    ensures Keyed(r.outbound, KeyOf) && Bounded(r.outbound) && (r.lifecycle == Running ==> !r.outbound.closed)
  {}

  lemma EnqueueOk(r: Renderer, m: Message, early: bool)
    requires QueueOk(r) && (early ==> m.PostWeb?)
    ensures QueueOk(Enqueue(r, m, early))
  {
    hide KeyOf, Pushed, PushOutcome;
    if early && r.lifecycle != Running { assert KeyOf(m) == "" by { PostWebHasNoKey(m); } }
    PushedQueue(r.outbound, m);
  }

  lemma PushedQueue(q: Queue<Message>, m: Message)
    requires Bounded(q) && Keyed(q, KeyOf)
    ensures var p := Pushed(q, m, KeyOf(m));
            && Bounded(p) && Keyed(p, KeyOf) && p.capacity == q.capacity && p.closed == q.closed
            && (KeyOf(m) == "" ==> forall i | 0 <= i < |p.items| :: p.items[i].value == m || (i < |q.items| && p.items[i] == q.items[i]))
  {
    hide KeyOf;
  }

  lemma PostWebHasNoKey(m: Message)
    requires m.PostWeb?
    ensures KeyOf(m) == ""
  {}

  // A setter that changes the renderer the way the host will change when it gets `m`, then sends `m`.
  lemma SendKeeps(r: Renderer, s: Renderer, m: Message, base: Host)
    requires RendererOk(r)
    requires s.lifecycle == r.lifecycle && s.outbound == r.outbound
    requires ShapeOk(s) && Mirror(s) == Apply(Mirror(r), m)
    ensures RendererOk(Send(s, m)) && (Tracks(r, base) ==> Tracks(Send(s, m), base))
  {
    hide Mirror, Apply, KeyOf, ShapeOk, Enqueue, FoldQueue;
    assert QueueOk(s);
    EnqueueTracks(s, m, false, base);
    ShapeIgnoresQueue(s, Send(s, m));
  }

  // A page message, which may be queued before the connection and changes nothing the host replicates.
  lemma PostWebKeeps(r: Renderer, id: string, json: string, base: Host)
    requires RendererOk(r)
    ensures RendererOk(SendMessageToWeb(r, id, json)) && (Tracks(r, base) ==> Tracks(SendMessageToWeb(r, id, json), base))
  {
    hide Mirror, ShapeOk, Enqueue, FoldQueue, QueueOk;
    EnqueueTracks(r, PostWeb(id, json), true, base);
    ShapeIgnoresQueue(r, SendMessageToWeb(r, id, json));
  }

  // ---- the setters --------------------------------------------------------------------------------

  lemma MirrorsUpdate(views: seq<ViewRec>, i: nat, v: ViewRec)
    requires i < |views|
    ensures Mirrors(views[i := v]) == Mirrors(views)[i := v.mirror]
  {}

  lemma UniqueUpdate(views: seq<HostView>, i: nat, v: HostView)
    requires UniqueIds(views) && i < |views| && v.id == views[i].id
    ensures UniqueIds(views[i := v])
  {}

  lemma FoundExactlyWhen(views: seq<HostView>, id: string)
    ensures Find(views, id) < |views| <==> HasId(views, id)
  {}

  lemma TargetUpdate(target: string, views: seq<HostView>, i: nat, v: HostView)
    requires TargetOk(target, views) && i < |views| && v.id == views[i].id
    ensures TargetOk(target, views[i := v])
  {
    var k :| 0 <= k < |views| && views[k].id == target;
    assert views[i := v][k].id == target;
  }

  // The first view ever created gets the input.
  lemma TargetNavigated(target: string, views: seq<HostView>, id: string, entry: string, legacy: bool, height: nat)
    requires TargetOk(target, views) && id != ""
    ensures TargetOk(if target == "" then id else target, Navigated(views, id, entry, legacy, height))
    ensures target == "" ==> Find(views, id) == |views|
  {
    var i, after := Find(views, id), Navigated(views, id, entry, legacy, height);
    if views == [] {
      assert after[0].id == id;
    } else {
      var k :| 0 <= k < |views| && views[k].id == target;
      assert after[k].id == target;
    }
  }

  lemma VisibleUpdate(views: seq<ViewRec>, i: nat, v: ViewRec)
    requires i < |views| && v.mirror.hidden == views[i].mirror.hidden
    ensures NoneVisible(views[i := v]) == NoneVisible(views)
  {
    assert views[i] in views && views[i := v][i] in views[i := v];
    forall u | u in views[i := v] && u != v ensures u in views {}
    forall u | u in views && u != views[i] ensures u in views[i := v] {
      var k :| 0 <= k < |views| && views[k] == u;
      assert views[i := v][k] == u;
    }
  }

  lemma NavigatedViews(views: seq<ViewRec>, id: string, entry: string, legacy: bool, height: nat)
    requires UniqueIds(Mirrors(views)) && height > 0
    requires forall i | 0 <= i < |views| :: views[i].mirror.logicalHeight > 0
    ensures var after := NavigatedRecs(views, id, entry, legacy, height);
            && Mirrors(after) == Navigated(Mirrors(views), id, entry, legacy, height)
            && UniqueIds(Mirrors(after)) && NoneVisible(after) == NoneVisible(views)
            && forall i | 0 <= i < |after| :: after[i].mirror.logicalHeight > 0
  {
    hide NoneVisible;
    var i := Find(Mirrors(views), id);
    var added := ViewRec(HostView(id, "", false, 1, true, 0), false);
    var all := if i < |views| then views else views + [added];
    if i == |views| {
      assert Mirrors(all) == Mirrors(views) + [added.mirror];
      AppendHidden(views, added);
    }
    var v := all[i].(mirror := all[i].mirror.(entry := entry, legacy := legacy, logicalHeight := height));
    MirrorsUpdate(all, i, v);
    UniqueUpdate(Mirrors(all), i, v.mirror);
    VisibleUpdate(all, i, v);
  }

  lemma NavigateKeeps(r: Renderer, id: string, entry: string, height: nat, legacy: bool, base: Host)
    requires RendererOk(r) && id != ""
    ensures RendererOk(CreateOrNavigateView(r, id, entry, height, legacy))
    ensures Tracks(r, base) ==> Tracks(CreateOrNavigateView(r, id, entry, height, legacy), base)
  {
    hide QueueOk, NoneVisible, Tracks, Send, UniqueIds, NavigatedRecs, Navigated, TargetOk;
    var n := AtLeastOne(height);
    NavigatedViews(r.views, id, entry, legacy, n);
    TargetNavigated(r.inputTarget, Mirrors(r.views), id, entry, legacy, n);
    SendKeeps(r, r.(views := NavigatedRecs(r.views, id, entry, legacy, n), inputTarget := if r.inputTarget == "" then id else r.inputTarget),
              Navigate(id, entry, n, legacy), base);
  }

  lemma AppendHidden(views: seq<ViewRec>, v: ViewRec)
    requires v.mirror.hidden
    ensures NoneVisible(views + [v]) == NoneVisible(views)
  {
    assert forall u | u in views :: u in views + [v];
  }

  // Only the settling flag of a view changes: nothing the host replicates.
  lemma SettleKeeps(r: Renderer, i: nat, v: ViewRec, base: Host)
    requires RendererOk(r) && i < |r.views| && v.mirror == r.views[i].mirror
    ensures RendererOk(r.(views := r.views[i := v])) && (Tracks(r, base) ==> Tracks(r.(views := r.views[i := v]), base))
  {
    hide QueueOk, NoneVisible, Tracks;
    MirrorsUpdate(r.views, i, v);
    assert Mirrors(r.views[i := v]) == Mirrors(r.views);
    VisibleUpdate(r.views, i, v);
    SameQueueKeeps(r, r.(views := r.views[i := v]), base);
  }

  function Presented(r: Renderer, hidden: bool): Renderer {
    if !hidden then BeginPresentation(r)
    else if r.allHidden then r.(framesEpoch := r.epoch, framesAccept := false) else r
  }

  lemma PresentedShape(r: Renderer, i: nat, v: ViewRec, hidden: bool)
    requires ShapeOk(r) && i < |r.views| && v.mirror == r.views[i].mirror.(hidden := hidden)
    ensures var views := r.views[i := v];
            var p := Presented(r.(views := views, allHidden := NoneVisible(views)), hidden);
            && ShapeOk(p) && p.views == views && Mirrors(views) == Mirrors(r.views)[i := v.mirror]
  {
    hide NoneVisible, TargetOk;
    MirrorsUpdate(r.views, i, v);
    UniqueUpdate(Mirrors(r.views), i, v.mirror);
    TargetUpdate(r.inputTarget, Mirrors(r.views), i, v.mirror);
    if hidden { HidingKeepsAccept(r, i, v); }
  }

  // The host's copy of the views and of the epoch follows the renderer's.
  lemma MirrorMoves(r: Renderer, s: Renderer, m: Message)
    requires m.SetHidden? || m.DestroyView?
    requires s == r.(views := s.views, inputTarget := s.inputTarget, allHidden := s.allHidden, epoch := s.epoch,
                     framesEpoch := s.framesEpoch, framesAccept := s.framesAccept)
    requires m.SetHidden? ==> m.shownEpoch == s.epoch && s.inputTarget == r.inputTarget && Mirrors(s.views) == WithHidden(Mirrors(r.views), m.view, m.hidden)
    requires m.DestroyView? ==>
               && s.epoch == r.epoch && Mirrors(s.views) == Without(Mirrors(r.views), m.destroyed)
               && Find(Mirrors(r.views), m.destroyed) < |r.views| && s.inputTarget == NextTarget(r.inputTarget, Mirrors(s.views), m.destroyed)
    ensures Mirror(s) == Apply(Mirror(r), m)
  {
    hide WithHidden, Without, NextTarget;
  }

  lemma HiddenKeeps(r: Renderer, id: string, hidden: bool, settle: bool, base: Host)
    requires RendererOk(r)
    ensures RendererOk(SetViewHidden(r, id, hidden, settle)) && (Tracks(r, base) ==> Tracks(SetViewHidden(r, id, hidden, settle), base))
  {
    hide QueueOk, NoneVisible, Tracks, Send, ShapeOk, Mirrors, Find, Mirror, Apply;
    var i := FindView(r, id);
    if i < |r.views| {
      var settled := r.views[i].(settleColdOpen := !hidden && settle);
      if settled.mirror.hidden == hidden && (hidden || !settle || r.views[i].settleColdOpen) {
        SettleKeeps(r, i, settled, base);
      } else {
        var v := settled.(mirror := settled.mirror.(hidden := hidden));
        var views := r.views[i := v];
        var p := Presented(r.(views := views, allHidden := NoneVisible(views)), hidden);
        PresentedShape(r, i, v, hidden);
        MirrorMoves(r, p, SetHidden(id, hidden, p.epoch, !hidden && settle));
        SendKeeps(r, p, SetHidden(id, hidden, p.epoch, !hidden && settle), base);
      }
    }
  }

  // Hiding one view while another stays visible leaves frames accepted; they were already.
  lemma HidingKeepsAccept(r: Renderer, i: nat, v: ViewRec)
    requires i < |r.views| && v.mirror.hidden
    ensures !NoneVisible(r.views[i := v]) ==> !NoneVisible(r.views)
  {
    if !NoneVisible(r.views[i := v]) {
      var u :| u in r.views[i := v] && !u.mirror.hidden;
      assert u in r.views;
    }
  }

  lemma SameQueueKeeps(r: Renderer, s: Renderer, base: Host)
    requires RendererOk(r)
    requires s.lifecycle == r.lifecycle && s.outbound == r.outbound && Mirror(s) == Mirror(r) && ShapeOk(s)
    ensures RendererOk(s) && (Tracks(r, base) ==> Tracks(s, base))
  {
    hide ShapeOk, Mirror;
  }

  lemma OrderedShape(r: Renderer, i: nat, v: ViewRec)
    requires ShapeOk(r) && i < |r.views| && i == FindView(r, v.mirror.id) && v.mirror == r.views[i].mirror.(order := v.mirror.order)
    ensures var s := r.(views := r.views[i := v]); ShapeOk(s) && Mirror(s) == Apply(Mirror(r), SetOrder(v.mirror.id, v.mirror.order))
  {
    hide NoneVisible, UniqueIds, TargetOk, Find;
    MirrorsUpdate(r.views, i, v);
    UniqueUpdate(Mirrors(r.views), i, v.mirror);
    TargetUpdate(r.inputTarget, Mirrors(r.views), i, v.mirror);
    VisibleUpdate(r.views, i, v);
  }

  lemma OrderKeeps(r: Renderer, id: string, order: int, base: Host)
    requires RendererOk(r)
    ensures RendererOk(SetViewOrder(r, id, order)) && (Tracks(r, base) ==> Tracks(SetViewOrder(r, id, order), base))
  {
    hide QueueOk, Tracks, Send, ShapeOk, Mirror, Apply, Find, Mirrors;
    var i := FindView(r, id);
    if i < |r.views| && r.views[i].mirror.order != order {
      var v := r.views[i].(mirror := r.views[i].mirror.(order := order));
      OrderedShape(r, i, v);
      SendKeeps(r, r.(views := r.views[i := v]), SetOrder(id, order), base);
    }
  }

  lemma {:induction false} ErasedMirrors(views: seq<ViewRec>, id: string)
    ensures Mirrors(Erased(views, id)) == Without(Mirrors(views), id)
    ensures forall v | v in Erased(views, id) :: v in views && v.mirror.id != id
  {
    if views != [] { ErasedMirrors(views[1..], id); }
  }

  lemma {:induction false} WithoutKeepsUnique(views: seq<HostView>, id: string)
    requires UniqueIds(views)
    ensures UniqueIds(Without(views, id)) && forall v | v in Without(views, id) :: v in views
  {
    if views != [] {
      WithoutKeepsUnique(views[1..], id);
      assert forall v | v in views[1..] :: v.id != views[0].id;
    }
  }

  // Erasing a view can only hide.
  lemma ErasingHides(views: seq<ViewRec>, id: string)
    ensures NoneVisible(views) ==> NoneVisible(Erased(views, id))
  {
    ErasedMirrors(views, id);
  }

  lemma {:induction false} WithoutKeepsOthers(views: seq<HostView>, id: string, other: string)
    requires other != id
    ensures HasId(views, other) ==> HasId(Without(views, id), other)
  {
    if views != [] {
      WithoutKeepsOthers(views[1..], id, other);
      if HasId(views, other) {
        var k :| 0 <= k < |views| && views[k].id == other;
        if k > 0 { assert views[1..][k - 1].id == other; }
        var rest := Without(views[1..], id);
        if k == 0 {
          assert Without(views, id)[0].id == other;
        } else {
          var j :| 0 <= j < |rest| && rest[j].id == other;
          assert Without(views, id)[if views[0].id == id then j else j + 1].id == other;
        }
      }
    }
  }

  lemma {:induction false} WithoutHasOld(views: seq<HostView>, id: string)
    ensures forall v | v in Without(views, id) :: v in views
  {
    if views != [] { WithoutHasOld(views[1..], id); }
  }

  // With its view gone the input goes to the first one left.
  lemma TargetErased(target: string, views: seq<HostView>, id: string)
    requires TargetOk(target, views)
    ensures TargetOk(NextTarget(target, Without(views, id), id), Without(views, id))
  {
    var left := Without(views, id);
    WithoutHasOld(views, id);
    forall i | 0 <= i < |left| ensures left[i].id != "" { assert left[i] in left && left[i] in views; }
    if views != [] {
      if target == id {
        if left != [] { assert left[0].id == NextTarget(target, left, id); }
      } else {
        WithoutKeepsOthers(views, id, target);
      }
    }
  }

  lemma DestroyedShape(r: Renderer, id: string, s: Renderer)
    requires ShapeOk(r) && s.views == Erased(r.views, id)
    requires s.allHidden == NoneVisible(s.views)
    requires if s.allHidden then s.framesEpoch == s.epoch && !s.framesAccept
             else s.framesEpoch == r.framesEpoch && s.framesAccept == r.framesAccept
    requires s == r.(views := s.views, inputTarget := s.inputTarget, allHidden := s.allHidden,
                     framesEpoch := s.framesEpoch, framesAccept := s.framesAccept)
    requires s.inputTarget == FirstTarget(r.inputTarget, s.views, id)
    ensures ShapeOk(s) && Mirrors(s.views) == Without(Mirrors(r.views), id)
    ensures s.inputTarget == NextTarget(r.inputTarget, Mirrors(s.views), id)
  {
    hide NoneVisible, UniqueIds, Without, Erased, Mirrors, TargetOk;
    ErasedMirrors(r.views, id);
    WithoutKeepsUnique(Mirrors(r.views), id);
    TargetErased(r.inputTarget, Mirrors(r.views), id);
    ErasingHides(r.views, id);
    forall i | 0 <= i < |s.views| ensures s.views[i].mirror.logicalHeight > 0 {
      assert s.views[i] in s.views && s.views[i] in r.views;
    }
  }

  lemma DestroyKeeps(r: Renderer, id: string, base: Host)
    requires RendererOk(r)
    ensures RendererOk(DestroyOne(r, id)) && (Tracks(r, base) ==> Tracks(DestroyOne(r, id), base))
  {
    hide QueueOk, Tracks, Send, ShapeOk, Mirrors, Mirror, Without, NoneVisible, Erased, Find, Apply;
    if FindView(r, id) < |r.views| {
      var views := Erased(r.views, id);
      var target := if r.inputTarget != id then r.inputTarget else if views == [] then "" else views[0].mirror.id;
      var u := r.(views := views, inputTarget := target, allHidden := NoneVisible(views));
      var s := if u.allHidden then u.(framesEpoch := u.epoch, framesAccept := false) else u;
      DestroyedShape(r, id, s);
      MirrorMoves(r, s, DestroyView(id));
      SendKeeps(r, s, DestroyView(id), base);
    }
  }

  // ---- the connection snapshot ----------------------------------------------------------------------

  lemma FoldCons(h: Host, m: Message, rest: seq<Message>)
    ensures Fold(Apply, h, [m] + rest) == Fold(Apply, Apply(h, m), rest)
  {
    hide Apply;
    FoldAppend(Apply, h, [m], rest);
    assert Fold(Apply, h, [m]) == Apply(Fold(Apply, h, [m][..0]), m);
  }

  lemma LastFound(views: seq<HostView>, v: HostView)
    requires Find(views, v.id) == |views|
    ensures Find(views + [v], v.id) == |views|
  {
    var k := Find(views + [v], v.id);
    assert (views + [v])[|views|] == v;
    assert forall j | 0 <= j < |views| :: (views + [v])[j] == views[j];
  }

  // One view's three messages append it to the host's list as the renderer has it.
  lemma ViewArrives(h: Host, v: HostView, epoch: nat, settle: bool)
    requires v.logicalHeight > 0 && h.announced == epoch && Find(h.views, v.id) == |h.views|
    ensures Apply(Apply(Apply(h, Navigate(v.id, v.entry, v.logicalHeight, v.legacy)), SetHidden(v.id, v.hidden, epoch, settle)),
                  SetOrder(v.id, v.order)) == h.(views := h.views + [v], target := if h.target == "" then v.id else h.target)
  {
    hide Find;
    var v0 := HostView(v.id, v.entry, v.legacy, v.logicalHeight, true, 0);
    var v1 := v0.(hidden := v.hidden);
    assert Navigated(h.views, v.id, v.entry, v.legacy, v.logicalHeight) == h.views + [v0];
    LastFound(h.views, v0);
    assert WithHidden(h.views + [v0], v.id, v.hidden) == h.views + [v1];
    LastFound(h.views, v1);
    assert WithOrder(h.views + [v1], v.id, v.order) == h.views + [v];
  }

  lemma NotFound(views: seq<HostView>, rest: seq<HostView>, id: string)
    requires UniqueIds(views + rest) && rest != [] && rest[0].id == id
    ensures Find(views, id) == |views|
  {
    assert (views + rest)[|views|] == rest[0];
    assert forall j | 0 <= j < |views| :: (views + rest)[j] == views[j];
  }

  lemma SnapshotValues(views: seq<ViewRec>, epoch: nat)
    requires views != []
    ensures var v := views[0].mirror;
            Values(ViewSnapshot(views, epoch)) ==
            [Navigate(v.id, v.entry, v.logicalHeight, v.legacy)] + ([SetHidden(v.id, v.hidden, epoch, views[0].settleColdOpen)]
            + ([SetOrder(v.id, v.order)] + Values(ViewSnapshot(views[1..], epoch))))
  {}

  lemma {:induction false} SnapshotArrives(h: Host, views: seq<ViewRec>, epoch: nat)
    requires UniqueIds(h.views + Mirrors(views)) && h.announced == epoch && forall i | 0 <= i < |views| :: views[i].mirror.id != ""
    requires forall i | 0 <= i < |views| :: views[i].mirror.logicalHeight > 0
    ensures Fold(Apply, h, Values(ViewSnapshot(views, epoch))) ==
            h.(views := h.views + Mirrors(views), target := if h.target == "" && views != [] then views[0].mirror.id else h.target)
    decreases views
  {
    hide Apply, Fold, UniqueIds, Find, Values, ViewSnapshot, Mirrors;
    if views == [] {
      NoMirrors();
      assert h.views + [] == h.views;
      assert ViewSnapshot(views, epoch) == [] by { EmptySnapshot(epoch); }
      EmptyFold(h);
    } else {
      var v, rest := views[0].mirror, Values(ViewSnapshot(views[1..], epoch));
      var m0, m1, m2 := Navigate(v.id, v.entry, v.logicalHeight, v.legacy), SetHidden(v.id, v.hidden, epoch, views[0].settleColdOpen), SetOrder(v.id, v.order);
      SnapshotValues(views, epoch);
      FoldCons(h, m0, [m1] + ([m2] + rest));
      FoldCons(Apply(h, m0), m1, [m2] + rest);
      FoldCons(Apply(Apply(h, m0), m1), m2, rest);
      FirstMirror(views);
      NotFound(h.views, Mirrors(views), v.id);
      ViewArrives(h, v, epoch, views[0].settleColdOpen);
      var g := h.(views := h.views + [v], target := if h.target == "" then v.id else h.target);
      Concatenated(h.views, [v], Mirrors(views[1..]));
      SnapshotArrives(g, views[1..], epoch);
    }
  }

  lemma NoMirrors()
    ensures Mirrors([]) == []
  {}

  lemma FirstMirror(views: seq<ViewRec>)
    requires views != []
    ensures Mirrors(views) == [views[0].mirror] + Mirrors(views[1..])
  {}

  lemma EmptySnapshot(epoch: nat)
    ensures ViewSnapshot([], epoch) == []
  {}

  lemma EmptyFold(h: Host)
    ensures Fold(Apply, h, []) == h
  {}

  lemma HeaderArrives(r: Renderer, process: Host)
    requires SizesOk(r)
    ensures var h := Apply(Apply(Apply(Apply(process, Init(r.width, r.height)), Viewport(r.viewportWidth, r.viewportHeight, r.epoch)),
                                 PointerInput(r.pointerInput)), WindowActive(r.windowActive));
            h == Mirror(r).(views := process.views, focused := process.focused, target := process.target)
  {}

  lemma FooterArrives(r: Renderer, h: Host)
    requires h == Mirror(r).(focused := h.focused, target := h.target)
    requires if r.inputTarget == "" then h.target == "" else Find(h.views, r.inputTarget) < |h.views|
    ensures Fold(Apply, h, (if r.inputTarget == "" then [] else [SetInputTarget(r.inputTarget)]) + [Focus(r.focus)]) == Mirror(r)
  {
    hide Fold, Find, Mirrors;
    var targeted := h.(target := r.inputTarget);
    FoldCons(targeted, Focus(r.focus), []);
    EmptyFold(Apply(targeted, Focus(r.focus)));
    assert [Focus(r.focus)] + [] == [Focus(r.focus)];
    if r.inputTarget == "" {
      assert [] + [Focus(r.focus)] == [Focus(r.focus)] && targeted == h;
    } else {
      FoldCons(h, SetInputTarget(r.inputTarget), [Focus(r.focus)]);
    }
  }

  lemma TargetIsThere(r: Renderer)
    requires TargetOk(r.inputTarget, Mirrors(r.views))
    ensures forall i | 0 <= i < |r.views| :: r.views[i].mirror.id != ""
    ensures if r.inputTarget == "" then r.views == [] else Find(Mirrors(r.views), r.inputTarget) < |r.views|
  {
    FoundExactlyWhen(Mirrors(r.views), r.inputTarget);
    forall i | 0 <= i < |r.views| ensures r.views[i].mirror.id != "" { assert Mirrors(r.views)[i].id != ""; }
  }

  // The snapshot alone brings any new host to the renderer's state.
  lemma BootstrapArrives(r: Renderer, process: Host)
    requires UniqueIds(Mirrors(r.views)) && SizesOk(r) && TargetOk(r.inputTarget, Mirrors(r.views))
    requires process.views == [] && process.target == ""
    ensures Fold(Apply, process, Values(Bootstrap(r))) == Mirror(r)
  {
    hide Fold, UniqueIds, Apply, Values, ViewSnapshot, Bootstrap;
    var m0, m1, m2, m3 := Init(r.width, r.height), Viewport(r.viewportWidth, r.viewportHeight, r.epoch), PointerInput(r.pointerInput), WindowActive(r.windowActive);
    var views, tail := Values(ViewSnapshot(r.views, r.epoch)), (if r.inputTarget == "" then [] else [SetInputTarget(r.inputTarget)]) + [Focus(r.focus)];
    BootstrapValues(r);
    assert Values(Bootstrap(r)) == [m0] + ([m1] + ([m2] + ([m3] + (views + tail))));
    var h1 := Apply(process, m0);
    FoldCons(process, m0, [m1] + ([m2] + ([m3] + (views + tail))));
    FoldCons(h1, m1, [m2] + ([m3] + (views + tail)));
    FoldCons(Apply(h1, m1), m2, [m3] + (views + tail));
    var h4 := Apply(Apply(Apply(h1, m1), m2), m3);
    FoldCons(Apply(Apply(h1, m1), m2), m3, views + tail);
    FoldAppend(Apply, h4, views, tail);
    HeaderArrives(r, process);
    assert h4.views + Mirrors(r.views) == Mirrors(r.views);
    TargetIsThere(r);
    SnapshotArrives(h4, r.views, r.epoch);
    FooterArrives(r, h4.(views := Mirrors(r.views), target := if r.views == [] then "" else r.views[0].mirror.id));
  }

  lemma BootstrapValues(r: Renderer)
    ensures Values(Bootstrap(r)) ==
            [Init(r.width, r.height), Viewport(r.viewportWidth, r.viewportHeight, r.epoch), PointerInput(r.pointerInput), WindowActive(r.windowActive)]
            + Values(ViewSnapshot(r.views, r.epoch)) + (if r.inputTarget == "" then [] else [SetInputTarget(r.inputTarget)]) + [Focus(r.focus)]
  {
    hide ViewSnapshot, Values;
    var a := [Plain(Init(r.width, r.height)), Plain(Viewport(r.viewportWidth, r.viewportHeight, r.epoch)),
              Plain(PointerInput(r.pointerInput)), Plain(WindowActive(r.windowActive))];
    var b := ViewSnapshot(r.views, r.epoch);
    var c := if r.inputTarget == "" then [] else [Plain(SetInputTarget(r.inputTarget))];
    var d := [Plain(Focus(r.focus))];
    ValuesAppend(a + b + c, d);
    ValuesAppend(a + b, c);
    ValuesAppend(a, b);
    ValuesListed(a, [Init(r.width, r.height), Viewport(r.viewportWidth, r.viewportHeight, r.epoch),
                     PointerInput(r.pointerInput), WindowActive(r.windowActive)]);
    ValuesListed(c, if r.inputTarget == "" then [] else [SetInputTarget(r.inputTarget)]);
    ValuesListed(d, [Focus(r.focus)]);
  }

  lemma ValuesListed(items: seq<Item<Message>>, values: seq<Message>)
    requires |items| == |values| && forall i | 0 <= i < |items| :: items[i].value == values[i]
    ensures Values(items) == values
  {}

  // Page messages leave what the host replicates alone.
  lemma {:induction false} PageMessagesAreNeutral(h: Host, items: seq<Item<Message>>)
    requires forall i | 0 <= i < |items| :: items[i].value.PostWeb?
    ensures Fold(Apply, h, Values(items)) == h
    decreases |items|
  {
    if items == [] {
      EmptyFold(h);
    } else {
      hide Fold, Apply;
      var json := items[0].value;
      PageMessagesAreNeutral(h, items[1..]);
      assert Values(items) == [json] + Values(items[1..]);
      FoldCons(h, json, Values(items[1..]));
      PageMessageIsNeutral(h, json);
    }
  }

  lemma PageMessageIsNeutral(h: Host, m: Message)
    requires m.PostWeb?
    ensures Apply(h, m) == h
  {}

  lemma ConnectKeeps(r: Renderer, process: Host)
    requires RendererOk(r) && process.views == [] && process.target == "" && r.lifecycle != Running && r.lifecycle != Stopped
    ensures RendererOk(Connect(r)) && Tracks(Connect(r), process)
    ensures Connect(r).lifecycle == Running <==> r.lifecycle == Starting && CanPrepend(r.outbound, Bootstrap(r))
  {
    hide UniqueIds, SizesOk, PresentationOk, TargetOk, Bootstrap, Apply, Fold, Values, KeyOf;
    ShapeIgnoresQueue(r, Connect(r));
    if CanPrepend(r.outbound, Bootstrap(r)) {
      BootstrapArrives(r, process);
      PrependMeaning(Apply, process, r.outbound, Bootstrap(r));
      PageMessagesAreNeutral(Mirror(r), r.outbound.items);
      BootstrapIsPlain(r);
    }
  }

  lemma {:induction false} ViewSnapshotIsPlain(views: seq<ViewRec>, epoch: nat)
    ensures forall item | item in ViewSnapshot(views, epoch) :: item.coalesceKey == ""
  {
    if views != [] { ViewSnapshotIsPlain(views[1..], epoch); }
  }

  lemma BootstrapIsPlain(r: Renderer)
    ensures forall item | item in Bootstrap(r) :: item.coalesceKey == ""
  {
    ViewSnapshotIsPlain(r.views, r.epoch);
  }

  // ---- every action keeps the invariant --------------------------------------------------------------

  lemma ViewportKeeps(r: Renderer, width: nat, height: nat, base: Host)
    requires RendererOk(r) && width > 0 && height > 0
    ensures var s := SendViewport(BeginPresentation(r.(viewportWidth := width, viewportHeight := height)));
            RendererOk(s) && (Tracks(r, base) ==> Tracks(s, base))
  {
    hide QueueOk, NoneVisible, Tracks, Send, UniqueIds;
    var s := BeginPresentation(r.(viewportWidth := width, viewportHeight := height));
    SendKeeps(r, s, Viewport(width, height, s.epoch), base);
  }

  lemma ResetKeeps(r: Renderer, base: Host)
    requires RendererOk(r)
    ensures RendererOk(ResetPresentation(r)) && (Tracks(r, base) ==> Tracks(ResetPresentation(r), base))
  {
    hide QueueOk, NoneVisible, Tracks, Send, UniqueIds;
    ViewportKeeps(r, r.viewportWidth, r.viewportHeight, base);
    assert r.(viewportWidth := r.viewportWidth, viewportHeight := r.viewportHeight) == r;
  }

  lemma SizeKeeps(r: Renderer, width: nat, height: nat, base: Host)
    requires RendererOk(r)
    ensures RendererOk(SetSize(r, width, height)) && (Tracks(r, base) ==> Tracks(SetSize(r, width, height), base))
  {
    hide QueueOk, NoneVisible, Tracks, Send, UniqueIds;
    if SetSize(r, width, height) != r { SendKeeps(r, r.(width := width, height := height), Resize(width, height), base); }
  }

  lemma InputTargetKeeps(r: Renderer, id: string, base: Host)
    requires RendererOk(r)
    ensures RendererOk(SetInputTargetView(r, id)) && (Tracks(r, base) ==> Tracks(SetInputTargetView(r, id), base))
  {
    hide QueueOk, NoneVisible, Tracks, Send, UniqueIds;
    if FindView(r, id) < |r.views| {
      FoundExactlyWhen(Mirrors(r.views), id);
      SendKeeps(r, r.(inputTarget := id), SetInputTarget(id), base);
    }
  }

  lemma FlagsKeep(r: Renderer, flag: bool, input: Input, base: Host)
    requires RendererOk(r)
    ensures RendererOk(SetPointerInputEnabled(r, flag)) && (Tracks(r, base) ==> Tracks(SetPointerInputEnabled(r, flag), base))
    ensures RendererOk(SetInputFocus(r, flag)) && (Tracks(r, base) ==> Tracks(SetInputFocus(r, flag), base))
    ensures RendererOk(SetWindowActive(r, flag)) && (Tracks(r, base) ==> Tracks(SetWindowActive(r, flag), base))
    ensures RendererOk(Send(r, Inject(input))) && (Tracks(r, base) ==> Tracks(Send(r, Inject(input)), base))
  {
    hide QueueOk, NoneVisible, Tracks, Send, UniqueIds;
    SendKeeps(r, r.(pointerInput := flag), PointerInput(flag), base);
    SendKeeps(r, r.(focus := flag), Focus(flag), base);
    SendKeeps(r, r.(windowActive := flag), WindowActive(flag), base);
    SendKeeps(r, r, Inject(input), base);
  }

  predicate IsSetter(a: Action) {
    !(a.AStart? || a.AConnect? || a.ADeliver? || a.AHandle? || a.ALost? || a.AStop? || a.ARestart?)
  }

  lemma SetterKeeps(w: World, a: Action)
    requires RendererOk(w.renderer) && Possible(w, a) && IsSetter(a)
    ensures var s := Next(w, a).renderer; RendererOk(s) && (Tracks(w.renderer, Base(w)) ==> Tracks(s, Base(w)))
  {
    hide RendererOk, Tracks, Base;
    var r := w.renderer;
    match a
    case ACreateOrNavigate(id, entry, height, legacy) => NavigateKeeps(r, id, entry, height, legacy, Base(w));
    case APostWeb(id, json) => PostWebKeeps(r, id, json, Base(w));
    case ASetViewHidden(view, hidden, settle) => HiddenKeeps(r, view, hidden, settle, Base(w));
    case ASetViewOrder(view, order) => OrderKeeps(r, view, order, Base(w));
    case ADestroyView(view) => DestroyKeeps(r, view, Base(w));
    case ASetInputTarget(id) => InputTargetKeeps(r, id, Base(w));
    case AResize(width, height) => SizeKeeps(r, width, height, Base(w));
    case ASetViewport(width, height) => if width != 0 && height != 0 { ViewportKeeps(r, width, height, Base(w)); }
    case AResetPresentation => ResetKeeps(r, Base(w));
    case ASetPointerInput(enabled) => FlagsKeep(r, enabled, Back, Base(w));
    case ASetInputFocus(focused) => FlagsKeep(r, focused, Back, Base(w));
    case ASetWindowActive(active) => FlagsKeep(r, active, Back, Base(w));
    case AInject(input) => FlagsKeep(r, true, input, Base(w));
  }

  // Delivering hands the oldest message from one queue to the other; handling it hands it to the host.
  lemma DeliverKeeps(w: World, oversized: bool)
    requires Converging(w) && Possible(w, ADeliver(oversized))
    ensures Converging(Deliver(w, oversized))
  {
    hide KeyOf, ShapeOk, Apply, FoldQueue, Mirror;
    var r, item := w.renderer, w.renderer.outbound.items[0];
    var v := Deliver(w, oversized);
    ShapeIgnoresQueue(r, v.renderer);
    assert item in r.outbound.items;
    PopKeepsQueue(r);
    PopMeaning(Apply, Base(w), r.outbound);
    HostAbsorbs();
    PushMeaning(Apply, KeyOf, w.host, w.inbound, item.value, KeyOf(item.value));
    if oversized { NeutralMessage(Base(w), item.value); }
  }

  lemma PopKeepsQueue(r: Renderer)
    requires QueueOk(r) && r.outbound.items != []
    ensures QueueOk(r.(outbound := Popped(r.outbound)))
    ensures QueueOk(SignalDead(r.(outbound := Popped(r.outbound))))
  {
    hide KeyOf;
  }

  lemma NeutralMessage(h: Host, m: Message)
    requires m.PostWeb? || m.Inject?
    ensures Apply(h, m) == h
  {}

  lemma HandleKeeps(w: World)
    requires Converging(w)
    ensures Converging(Handle(w)) && Base(Handle(w)) == Base(w)
  {
    hide RendererOk, Tracks, KeyOf, Apply, FoldQueue;
    if w.inbound.items != [] { PopMeaning(Apply, w.host, w.inbound); }
  }

  lemma NextKeeps(w: World, a: Action)
    requires Converging(w) && Possible(w, a)
    ensures Converging(Next(w, a))
  {
    hide KeyOf, RendererOk, Tracks, FoldQueue;
    if IsSetter(a) {
      SetterKeeps(w, a);
    } else {
      match a
      case AConnect(process) => ConnectionKeeps(w, process);
      case ADeliver(oversized) => DeliverKeeps(w, oversized);
      case AHandle => HandleKeeps(w);
      case AStart(_) => ConnectionEndKeeps(w, a);
      case ALost => ConnectionEndKeeps(w, a);
      case AStop => ConnectionEndKeeps(w, a);
      case ARestart => RestartKeeps(w);
    }
  }

  lemma ConnectionEndKeeps(w: World, a: Action)
    requires Converging(w) && (a.AStart? || a.ALost? || a.AStop?)
    ensures Converging(Next(w, a))
  {
    hide KeyOf, ShapeOk, FoldQueue, QueueOk, SignalDead, Stop, Start;
    var r := w.renderer;
    EndedQueue(r);
    match a
    case AStart(adapter) => EndKeeps(w, Start(r, adapter));
    case ALost => EndKeeps(w, SignalDead(r));
    case AStop => EndKeeps(w, Stop(r));
  }

  lemma EndedQueue(r: Renderer)
    requires QueueOk(r)
    ensures forall s | s in [Start(r, true), Start(r, false), SignalDead(r), Stop(r)] ::
              QueueOk(s) && s == r.(lifecycle := s.lifecycle, outbound := s.outbound) && (s.lifecycle == Running ==> s == r)
  {
    hide KeyOf;
  }

  lemma EndKeeps(w: World, s: Renderer)
    requires Converging(w) && QueueOk(s) && s == w.renderer.(lifecycle := s.lifecycle, outbound := s.outbound)
    requires s.lifecycle == Running ==> s == w.renderer
    ensures Converging(w.(renderer := s))
  {
    hide ShapeOk, QueueOk, FoldQueue, KeyOf;
    ShapeIgnoresQueue(w.renderer, s);
  }

  lemma RestartKeeps(w: World)
    requires Converging(w)
    ensures Converging(Next(w, ARestart))
  {
    hide KeyOf, FoldQueue, QueueOk, ShapeOk, RestartAfterFailure;
    RestartedQueue(w.renderer);
    RestartedShape(w.renderer);
  }

  lemma RestartedQueue(r: Renderer)
    requires QueueOk(r)
    ensures QueueOk(RestartAfterFailure(r)) && RestartAfterFailure(r).lifecycle != Running
  {
    hide KeyOf;
  }

  lemma RestartedShape(r: Renderer)
    requires ShapeOk(r)
    ensures ShapeOk(RestartAfterFailure(r))
  {
    hide UniqueIds, NoneVisible, TargetOk;
  }

  lemma ConnectionKeeps(w: World, process: Host)
    requires Converging(w) && Possible(w, AConnect(process))
    ensures Converging(Next(w, AConnect(process)))
  {
    hide RendererOk, Tracks, KeyOf;
    ConnectKeeps(w.renderer, process);
    EmptyFold(process);
  }

  // ---- runs ---------------------------------------------------------------------------------------------

  predicate Leads(w: World, a: Action, v: World) {
    Possible(w, a) && v == Next(w, a)
  }

  ghost predicate Execution(worlds: seq<World>, actions: seq<Action>) {
    && |worlds| == |actions| + 1
    && (exists width, height :: worlds[0].renderer == Fresh(width, height))
    && worlds[0].inbound == Queue(MAX_GAME_MESSAGES, [], false) && !worlds[0].hostUp
    && forall i | 0 <= i < |actions| :: Leads(worlds[i], actions[i], worlds[i + 1])
  }

  lemma {:induction false} ExecutionConverges(worlds: seq<World>, actions: seq<Action>, n: nat)
    requires Execution(worlds, actions) && n <= |actions|
    ensures Converging(worlds[n])
  {
    hide Converging, Next;
    if n == 0 {
      var width, height :| worlds[0].renderer == Fresh(width, height);
      StartConverges(worlds[0], width, height);
    } else {
      ExecutionConverges(worlds, actions, n - 1);
      assert Leads(worlds[n - 1], actions[n - 1], worlds[n]);
      NextKeeps(worlds[n - 1], actions[n - 1]);
    }
  }

  lemma StartConverges(w: World, width: nat, height: nat)
    requires w.renderer == Fresh(width, height) && w.inbound == Queue(MAX_GAME_MESSAGES, [], false) && !w.hostUp
    ensures Converging(w)
  {
    hide KeyOf, Apply, FoldQueue;
  }

  // While connected, the host's state with the undelivered messages of both queues folded over it is the
  // renderer's own state; once both queues are empty the host's state is the renderer's.
  lemma HostConvergesToTheRenderer(worlds: seq<World>, actions: seq<Action>, n: nat)
    requires Execution(worlds, actions) && n <= |actions|
    requires worlds[n].renderer.lifecycle == Running && worlds[n].hostUp
    ensures var w := worlds[n];
            && Fold(Apply, w.host, Values(w.inbound.items) + Values(w.renderer.outbound.items)) == Mirror(w.renderer)
            && (w.inbound.items == [] && w.renderer.outbound.items == [] ==> w.host == Mirror(w.renderer))
  {
    hide RendererOk, KeyOf, Apply;
    var w := worlds[n];
    ExecutionConverges(worlds, actions, n);
    FoldAppend(Apply, w.host, Values(w.inbound.items), Values(w.renderer.outbound.items));
  }

  // Frames are accepted exactly while some view is visible, and only under the epoch last announced.
  lemma FramesFollowVisibility(worlds: seq<World>, actions: seq<Action>, n: nat)
    requires Execution(worlds, actions) && n <= |actions|
    ensures var r := worlds[n].renderer;
            r.framesEpoch == r.epoch && (r.framesAccept <==> exists v | v in r.views :: !v.mirror.hidden)
  {
    hide QueueOk, Tracks, Base, KeyOf, UniqueIds;
    ExecutionConverges(worlds, actions, n);
  }

  // ---- a show that its own hide replaces ------------------------------------------------------------------

  lemma HideKey(id: string, epoch: nat)
    requires id != ""
    ensures KeyOf(SetHidden(id, true, epoch, false)) == "setHidden:" + id
  {
    assert "setHidden" + ":" == "setHidden:";
  }

  // With another view visible and an empty queue, showing a hidden view and hiding it again leaves frames
  // accepted under the new epoch and only the hide queued.
  lemma ShowThenHideQueuesTheHide(r: Renderer, id: string)
    requires RendererOk(r) && r.lifecycle == Running && r.outbound.items == []
    requires id != "" && FindView(r, id) < |r.views| && r.views[FindView(r, id)].mirror.hidden && !r.allHidden
    ensures var t := SetViewHidden(SetViewHidden(r, id, false, false), id, true, false);
            && t.lifecycle == Running && t.epoch == t.framesEpoch == r.epoch + 1 && t.framesAccept
            && t.outbound.items == [Item(SetHidden(id, true, r.epoch + 1, false), "setHidden:" + id)]
  {
    hide SetViewHidden, FindView, NoneVisible, KeyOf;
    var i := FindView(r, id);
    var s := SetViewHidden(r, id, false, false);
    ShowAlone(r, id);
    var shown := r.views[i].(mirror := r.views[i].mirror.(hidden := false), settleColdOpen := false);
    FindAfterShow(r, i, shown);
    StillVisible(r.views, i, shown.(mirror := r.views[i].mirror));
    HideAlone(s, id, i);
    HideKey(id, s.epoch);
    assert s.views[i := shown.(mirror := r.views[i].mirror)] == r.views[i := shown.(mirror := r.views[i].mirror)];
  }

  lemma FindAfterShow(r: Renderer, i: nat, v: ViewRec)
    requires i < |r.views| && v.mirror.id == r.views[i].mirror.id
    ensures FindView(r.(views := r.views[i := v]), v.mirror.id) == FindView(r, v.mirror.id)
  {
    hide Find;
    MirrorsUpdate(r.views, i, v);
    FindUpdated(Mirrors(r.views), i, v.mirror, v.mirror.id);
  }

  lemma StillVisible(views: seq<ViewRec>, i: nat, v: ViewRec)
    requires i < |views| && views[i].mirror.hidden && v.mirror.hidden && !NoneVisible(views)
    ensures !NoneVisible(views[i := v])
  {
    var u :| u in views && !u.mirror.hidden;
    var k :| 0 <= k < |views| && views[k] == u;
    assert views[i := v][k] == u;
  }

  lemma ShowAlone(r: Renderer, id: string)
    requires QueueOk(r) && r.lifecycle == Running && r.outbound.items == []
    requires id != "" && FindView(r, id) < |r.views| && r.views[FindView(r, id)].mirror.hidden
    ensures var i := FindView(r, id);
            var m := SetHidden(id, false, r.epoch + 1, false);
            var s := SetViewHidden(r, id, false, false);
            && s.views == r.views[i := r.views[i].(mirror := r.views[i].mirror.(hidden := false), settleColdOpen := false)]
            && s.lifecycle == Running && s.epoch == s.framesEpoch == r.epoch + 1 && s.framesAccept && s.outbound == r.outbound.(items := [Item(m, KeyOf(m))])
  {
    hide Find, KeyOf, Mirrors;
    var i := FindView(r, id);
    var v := r.views[i].(mirror := r.views[i].mirror.(hidden := false), settleColdOpen := false);
    assert r.views[i := v][i] == v;
  }

  lemma HideAlone(s: Renderer, id: string, i: nat)
    requires s.lifecycle == Running && id != "" && !s.outbound.closed && s.epoch > 0
    requires i == FindView(s, id) < |s.views| && !s.views[i].mirror.hidden
    requires s.outbound.items == [Item(SetHidden(id, false, s.epoch, false), KeyOf(SetHidden(id, false, s.epoch, false)))]
    ensures var v := s.views[i].(mirror := s.views[i].mirror.(hidden := true), settleColdOpen := false);
            var m := SetHidden(id, true, s.epoch, false);
            var t := SetViewHidden(s, id, true, false);
            && t.lifecycle == Running && t.epoch == s.epoch && t.outbound.items == [Item(m, KeyOf(m))] && t.views == s.views[i := v]
            && (!NoneVisible(t.views) ==> t.framesEpoch == s.framesEpoch && t.framesAccept == s.framesAccept)
  {
    hide Find, NoneVisible, Mirrors;
    HideKey(id, s.epoch);
  }
}
