// How the renderer's state reaches the browser host: the messages of src/Render/WebView2HostWebRenderer.cpp,
// what each does to the host (tools/webview2_host/GameMessages.inl), and the renderer's setters,
// connection snapshot and lifecycle as functions on values.
module HostReplicationModel {
  import opened Wrappers
  import opened BoundedQueues

  const MAX_OUTBOUND: nat := 512
  const MAX_GAME_MESSAGES: nat := 1024

  datatype Input = MouseMove | MouseButton | MouseWheel | Keyboard | TextInput | Back | FrameAck | GameWindow | OpenDevTools

  datatype Message =
    | Init(initWidth: nat, initHeight: nat)
    | Viewport(width: nat, height: nat, epoch: nat)
    | Resize(newWidth: nat, newHeight: nat)
    | PointerInput(enabled: bool)
    | WindowActive(active: bool)
    | Navigate(id: string, entry: string, logicalHeight: nat, legacy: bool)
    | SetHidden(view: string, hidden: bool, shownEpoch: nat, settleColdOpen: bool)
    | SetOrder(orderedView: string, order: int)
    | SetInputTarget(target: string)
    | Focus(focused: bool)
    | DestroyView(destroyed: string)
    | PostWeb(receiver: string, json: string)
    | Inject(input: Input)

  function TypeOf(m: Message): string {
    match m
    case Init(_, _) => "init"
    case Viewport(_, _, _) => "viewport"
    case Resize(_, _) => "resize"
    case PointerInput(_) => "pointerInput"
    case WindowActive(_) => "windowActive"
    case Navigate(_, _, _, _) => "navigate"
    case SetHidden(_, _, _, _) => "setHidden"
    case SetOrder(_, _) => "setOrder"
    case SetInputTarget(_) => "setInputTarget"
    case Focus(_) => "focus"
    case DestroyView(_) => "destroyView"
    case PostWeb(_, _) => "postWeb"
    case Inject(Keyboard) => "keyboard"
    case Inject(TextInput) => "textInput"
    case Inject(Back) => "back"
    case Inject(FrameAck) => "frameAck"
    case Inject(GameWindow) => "gameWindow"
    case Inject(OpenDevTools) => "openDevTools"
    case Inject(_) => "mouse"
  }

  function KindOf(m: Message): string {
    match m
    case Inject(MouseMove) => "move"
    case Inject(MouseButton) => "button"
    case Inject(MouseWheel) => "wheel"
    case _ => ""
  }

  // The "view" field; Navigate names its view in "id".
  function ViewOf(m: Message): string {
    match m
    case SetHidden(view, _, _, _) => view
    case SetOrder(view, _) => view
    case SetInputTarget(view) => view
    case DestroyView(view) => view
    case PostWeb(view, _) => view
    case _ => ""
  }

  // CoalesceKey
  function KeyOf(m: Message): string {
    GameMessageCoalesceKey(TypeOf(m), KindOf(m), ViewOf(m))
  }

  // ---- the browser host --------------------------------------------------------------------------

  datatype HostView = HostView(id: string, entry: string, legacy: bool, logicalHeight: nat, hidden: bool, order: int)

  // `announced` is the presentation epoch carried by the last message that carries one, `target` the view that gets
  // the input, "" for none.
  datatype Host = Host(
    width: nat, height: nat, viewportWidth: nat, viewportHeight: nat, announced: nat,
    pointerInput: bool, windowActive: bool, focused: bool, views: seq<HostView>, target: string)

  function AtLeastOne(n: nat): nat {
    Max(1, n)
  }

  // Index of the first view with this id, or |views|.
  function Find(views: seq<HostView>, id: string): (i: nat)
    ensures i <= |views| && forall k | 0 <= k < i :: views[k].id != id
    ensures i < |views| ==> views[i].id == id
  {
    if views == [] || views[0].id == id then 0 else 1 + Find(views[1..], id)
  }

  function Without(views: seq<HostView>, id: string): seq<HostView> {
    if views == [] then []
    else if views[0].id == id then Without(views[1..], id)
    else [views[0]] + Without(views[1..], id)
  }

  function Navigated(views: seq<HostView>, id: string, entry: string, legacy: bool, logicalHeight: nat): seq<HostView> {
    var i := Find(views, id);
    if i == |views| then views + [HostView(id, entry, legacy, logicalHeight, true, 0)]
    else views[i := views[i].(entry := entry, legacy := legacy, logicalHeight := logicalHeight)]
  }

  function WithHidden(views: seq<HostView>, id: string, hidden: bool): seq<HostView> {
    var i := Find(views, id);
    if i == |views| then views else views[i := views[i].(hidden := hidden)]
  }

  function WithOrder(views: seq<HostView>, id: string, order: int): seq<HostView> {
    var i := Find(views, id);
    if i == |views| then views else views[i := views[i].(order := order)]
  }

  // The input target once this view is gone: the first one left.
  function NextTarget(target: string, views: seq<HostView>, gone: string): string {
    if target != gone then target else if views == [] then "" else views[0].id
  }

  function Apply(h: Host, m: Message): Host {
    match m
    case Init(width, height) =>
      var w, t := AtLeastOne(width), AtLeastOne(height);
      h.(width := w, height := t, viewportWidth := w, viewportHeight := t)
    case Viewport(width, height, epoch) =>
      h.(viewportWidth := AtLeastOne(width), viewportHeight := AtLeastOne(height), announced := epoch)
    case Resize(width, height) => h.(width := AtLeastOne(width), height := AtLeastOne(height))
    case PointerInput(enabled) => h.(pointerInput := enabled)
    case WindowActive(active) => h.(windowActive := active)
    case Navigate(id, entry, logicalHeight, legacy) =>
      h.(views := Navigated(h.views, id, entry, legacy, AtLeastOne(logicalHeight)),
         target := if h.target == "" && Find(h.views, id) == |h.views| then id else h.target)
    case SetHidden(id, hidden, epoch, _) => h.(views := WithHidden(h.views, id, hidden), announced := epoch)
    case SetOrder(id, order) => h.(views := WithOrder(h.views, id, order))
    case SetInputTarget(id) => if Find(h.views, id) == |h.views| then h else h.(target := id)
    case Focus(focused) => h.(focused := focused)
    case DestroyView(id) =>
      h.(views := Without(h.views, id),
         target := if Find(h.views, id) == |h.views| then h.target else NextTarget(h.target, Without(h.views, id), id))
    case _ => h
  }

  // ---- the renderer --------------------------------------------------------------------------------

  datatype Lifecycle = Stopped | Starting | Running | Stopping | Failed

  datatype ViewRec = ViewRec(mirror: HostView, settleColdOpen: bool)

  // `framesEpoch` and `framesAccept` are the arguments of the last SetPresentation given to the frame consumer.
  datatype Renderer = Renderer(
    views: seq<ViewRec>, inputTarget: string, allHidden: bool, epoch: nat,
    width: nat, height: nat, viewportWidth: nat, viewportHeight: nat,
    pointerInput: bool, focus: bool, windowActive: bool,
    lifecycle: Lifecycle, outbound: Queue<Message>, framesEpoch: nat, framesAccept: bool)

  function Fresh(width: nat, height: nat): Renderer {
    Renderer([], "", true, 0, AtLeastOne(width), AtLeastOne(height), AtLeastOne(width), AtLeastOne(height),
             true, false, true, Stopped, Queue(MAX_OUTBOUND, [], false), 0, false)
  }

  function Mirrors(views: seq<ViewRec>): (r: seq<HostView>)
    ensures |r| == |views| && forall i | 0 <= i < |r| :: r[i] == views[i].mirror
  {
    if views == [] then [] else [views[0].mirror] + Mirrors(views[1..])
  }

  function FindView(r: Renderer, id: string): (i: nat)
    ensures i <= |r.views| && (i < |r.views| ==> r.views[i].mirror.id == id)
    ensures forall k | 0 <= k < i :: r.views[k].mirror.id != id
  {
    Find(Mirrors(r.views), id)
  }

  predicate NoneVisible(views: seq<ViewRec>) {
    forall v | v in views :: v.mirror.hidden
  }

  function SignalDead(r: Renderer): Renderer {
    r.(lifecycle := if r.lifecycle == Starting || r.lifecycle == Running then Failed else r.lifecycle,
       outbound := r.outbound.(closed := true))
  }

  function Enqueue(r: Renderer, m: Message, queueBeforeConnect: bool): Renderer {
    if !queueBeforeConnect && r.lifecycle != Running then r else
    var queued := r.(outbound := Pushed(r.outbound, m, KeyOf(m)));
    if PushOutcome(r.outbound, KeyOf(m)) == Full then SignalDead(queued) else queued
  }

  function Send(r: Renderer, m: Message): Renderer {
    Enqueue(r, m, false)
  }

  function BeginPresentation(r: Renderer): Renderer {
    r.(epoch := r.epoch + 1, framesEpoch := r.epoch + 1, framesAccept := !r.allHidden)
  }

  function SendViewport(r: Renderer): Renderer {
    Send(r, Viewport(r.viewportWidth, r.viewportHeight, r.epoch))
  }

  function NavigatedRecs(views: seq<ViewRec>, id: string, entry: string, legacy: bool, logicalHeight: nat): seq<ViewRec> {
    var i := Find(Mirrors(views), id);
    var all := if i < |views| then views else views + [ViewRec(HostView(id, "", false, 1, true, 0), false)];
    all[i := all[i].(mirror := all[i].mirror.(entry := entry, legacy := legacy, logicalHeight := logicalHeight))]
  }

  function CreateOrNavigateView(r: Renderer, id: string, entry: string, height: nat, legacy: bool): Renderer {
    var logicalHeight := AtLeastOne(height);
    Send(r.(views := NavigatedRecs(r.views, id, entry, legacy, logicalHeight),
            inputTarget := if r.inputTarget == "" then id else r.inputTarget),
         Navigate(id, entry, logicalHeight, legacy))
  }

  function SetInputTargetView(r: Renderer, id: string): Renderer {
    if FindView(r, id) == |r.views| || r.inputTarget == id then r
    else Send(r.(inputTarget := id), SetInputTarget(id))
  }

  function SetSize(r: Renderer, width: nat, height: nat): Renderer {
    if width == 0 || height == 0 || (r.width == width && r.height == height) then r
    else Send(r.(width := width, height := height), Resize(width, height))
  }

  function SetViewport(r: Renderer, width: nat, height: nat): Renderer {
    if width == 0 || height == 0 || (r.viewportWidth == width && r.viewportHeight == height) then r
    else SendViewport(BeginPresentation(r.(viewportWidth := width, viewportHeight := height)))
  }

  function SetPointerInputEnabled(r: Renderer, enabled: bool): Renderer {
    if r.pointerInput == enabled then r else Send(r.(pointerInput := enabled), PointerInput(enabled))
  }

  function ResetPresentation(r: Renderer): Renderer {
    SendViewport(BeginPresentation(r))
  }

  function SendMessageToWeb(r: Renderer, id: string, json: string): Renderer {
    if FindView(r, id) == |r.views| then r else Enqueue(r, PostWeb(id, json), true)
  }

  function SetInputFocus(r: Renderer, focused: bool): Renderer {
    Send(r.(focus := focused), Focus(focused))
  }

  function SetWindowActive(r: Renderer, active: bool): Renderer {
    Send(r.(windowActive := active), WindowActive(active))
  }

  function SetViewHidden(r: Renderer, id: string, hidden: bool, settle: bool): Renderer {
    var i := FindView(r, id);
    if i == |r.views| then r else
    var beginOpening := !hidden && settle && !r.views[i].settleColdOpen;
    var settled := r.views[i].(settleColdOpen := !hidden && settle);
    if settled.mirror.hidden == hidden && !beginOpening then r.(views := r.views[i := settled]) else
    var views := r.views[i := settled.(mirror := settled.mirror.(hidden := hidden))];
    var u := r.(views := views, allHidden := NoneVisible(views));
    var p := if !hidden then BeginPresentation(u)
             else if u.allHidden then u.(framesEpoch := u.epoch, framesAccept := false) else u;
    Send(p, SetHidden(id, hidden, p.epoch, !hidden && settle))
  }

  function SetViewOrder(r: Renderer, id: string, order: int): Renderer {
    var i := FindView(r, id);
    if i == |r.views| || r.views[i].mirror.order == order then r else
    Send(r.(views := r.views[i := r.views[i].(mirror := r.views[i].mirror.(order := order))]), SetOrder(id, order))
  }

  // std::erase_if(views, id)
  function Erased(views: seq<ViewRec>, id: string): seq<ViewRec> {
    if views == [] then []
    else if views[0].mirror.id == id then Erased(views[1..], id)
    else [views[0]] + Erased(views[1..], id)
  }

  // The input target once this view is gone.
  function FirstTarget(target: string, views: seq<ViewRec>, gone: string): string {
    if target != gone then target else if views == [] then "" else views[0].mirror.id
  }

  function DestroyOne(r: Renderer, id: string): Renderer {
    if FindView(r, id) == |r.views| then r else
    var views := Erased(r.views, id);
    var u := r.(views := views, inputTarget := FirstTarget(r.inputTarget, views, id), allHidden := NoneVisible(views));
    Send(if u.allHidden then u.(framesEpoch := u.epoch, framesAccept := false) else u, DestroyView(id))
  }

  // ---- connection ----------------------------------------------------------------------------------

  function Plain(m: Message): Item<Message> {
    Item(m, "")
  }

  function ViewSnapshot(views: seq<ViewRec>, epoch: nat): seq<Item<Message>> {
    if views == [] then [] else
    var v := views[0].mirror;
    [Plain(Navigate(v.id, v.entry, v.logicalHeight, v.legacy)),
     Plain(SetHidden(v.id, v.hidden, epoch, views[0].settleColdOpen)),
     Plain(SetOrder(v.id, v.order))] + ViewSnapshot(views[1..], epoch)
  }

  function Bootstrap(r: Renderer): seq<Item<Message>> {
    [Plain(Init(r.width, r.height)), Plain(Viewport(r.viewportWidth, r.viewportHeight, r.epoch)),
     Plain(PointerInput(r.pointerInput)), Plain(WindowActive(r.windowActive))]
    + ViewSnapshot(r.views, r.epoch)
    + (if r.inputTarget == "" then [] else [Plain(SetInputTarget(r.inputTarget))])
    + [Plain(Focus(r.focus))]
  }

  // PublishConnected with the snapshot, and SignalDead when it fails.
  function Connect(r: Renderer): Renderer {
    if !CanPrepend(r.outbound, Bootstrap(r)) then SignalDead(r) else
    var queued := r.(outbound := Prepended(r.outbound, Bootstrap(r)));
    if r.lifecycle == Starting then queued.(lifecycle := Running) else SignalDead(queued)
  }

  // Start: `adapter` says the engine's adapter is known.
  function Start(r: Renderer, adapter: bool): Renderer {
    if r.lifecycle == Stopped && adapter then r.(lifecycle := Starting) else r
  }

  function Stop(r: Renderer): Renderer {
    if r.lifecycle == Stopped || r.lifecycle == Stopping then r
    else r.(lifecycle := Stopped, outbound := r.outbound.(closed := true))
  }

  function RestartAfterFailure(r: Renderer): Renderer {
    var u := Stop(r);
    u.(outbound := u.outbound.(items := [], closed := false), focus := false)
  }
}
