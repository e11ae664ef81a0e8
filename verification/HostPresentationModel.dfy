// Which presentation epoch the browser host renders under (tools/webview2_host/HostApp.cpp:419-503,
// HostGraphics.inl:343-388, GameMessages.inl:80-95), beside the replicated state of HostReplicationProofs.
//
// Every viewport change and every show of a view begins an epoch of its own. The host takes a viewport's
// epoch up at once and a show's once the view has painted: until then the view's reveal is pending with that
// epoch, and a hide cancels it.
module HostPresentationModel {
  import opened Wrappers
  import opened BoundedQueues
  import opened HostReplicationModel
  import opened HostReplicationProofs

  // `awaiting` holds the views whose reveal is pending, with their pendingPresentationEpoch.
  datatype Screen = Screen(epoch: nat, awaiting: map<string, nat>)

  // AdvancePresentation
  function Advanced(s: Screen, epoch: nat): Screen {
    s.(epoch := Max(s.epoch, epoch))
  }

  // ShowView: `direct` says that the view cannot report a paint (no visual, page or document yet).
  function Shows(s: Screen, view: string, wasHidden: bool, epoch: nat, direct: bool): Screen {
    if !wasHidden then Advanced(s, epoch).(awaiting := if view in s.awaiting then s.awaiting[view := 0] else s.awaiting)
    else if direct then Advanced(s, epoch).(awaiting := s.awaiting - {view})
    else s.(awaiting := s.awaiting[view := epoch])
  }

  // HandleGameMessage; messages about unknown views are ignored.
  function Handled(s: Screen, h: Host, m: Message, direct: bool): Screen {
    match m
    case Viewport(_, _, epoch) => Advanced(s, epoch)
    case SetHidden(view, hidden, epoch, _) =>
      var i := Find(h.views, view);
      if i == |h.views| then s
      else if hidden then s.(awaiting := s.awaiting - {view})
      else Shows(s, view, h.views[i].hidden, epoch, direct)
    case DestroyView(view) => s.(awaiting := s.awaiting - {view})
    case _ => s
  }

  // CompleteReveal, on the page's paint or on its timeout.
  function Revealed(s: Screen, view: string): Screen
    requires view in s.awaiting
  {
    Advanced(s, s.awaiting[view]).(awaiting := s.awaiting - {view})
  }

  // `began` names the view whose show began the current epoch; None stands for a viewport change, a reset
  // or a connection, whose snapshot carries the epoch in its viewport.
  datatype Stage = Stage(w: World, screen: Screen, began: Option<string>)

  datatype Step = Net(action: Action, direct: bool) | Reveal(view: string)

  predicate Ready(s: Stage, step: Step) {
    match step
    case Net(a, _) => Possible(s.w, a)
    case Reveal(view) => view in s.screen.awaiting
  }

  function NextScreen(s: Stage, a: Action, direct: bool): Screen {
    if a.AConnect? then Screen(0, map[])
    else if a.AHandle? && s.w.inbound.items != [] then Handled(s.screen, s.w.host, s.w.inbound.items[0].value, direct)
    else s.screen
  }

  function NextBegan(s: Stage, a: Action): Option<string>
    requires Possible(s.w, a)
  {
    if a.AConnect? then None
    else if HostReplicationProofs.Next(s.w, a).renderer.epoch == s.w.renderer.epoch then s.began
    else if a.ASetViewHidden? then Some(a.view) else None
  }

  function Go(s: Stage, step: Step): Stage
    requires Ready(s, step)
  {
    match step
    case Net(a, direct) => Stage(HostReplicationProofs.Next(s.w, a), NextScreen(s, a, direct), NextBegan(s, a))
    case Reveal(view) => s.(screen := Revealed(s.screen, view))
  }

  predicate Connected(s: Stage) {
    s.w.renderer.lifecycle == Running && s.w.hostUp
  }

  // Everything sent and not yet handled, in order.
  function Undelivered(w: World): seq<Message> {
    Values(w.inbound.items) + Values(w.renderer.outbound.items)
  }

  // ---- offers -----------------------------------------------------------------------------------------

  // A message whose handling makes the host take up this epoch, at once or once the view has painted.
  predicate Offers(m: Message, epoch: nat) {
    (m.Viewport? && m.epoch == epoch) || (m.SetHidden? && !m.hidden && m.shownEpoch == epoch)
  }

  // An undelivered message or a pending reveal still leads to this epoch.
  predicate Carried(ms: seq<Message>, awaiting: map<string, nat>, epoch: nat) {
    (exists m | m in ms :: Offers(m, epoch)) || (exists v | v in awaiting :: awaiting[v] == epoch)
  }

  // The host renders under this epoch, or may still come to.
  predicate Alive(s: Stage, epoch: nat) {
    s.screen.epoch == epoch || Carried(Undelivered(s.w), s.screen.awaiting, epoch)
  }

  // ---- what the game's calls send -----------------------------------------------------------------------

  function SentBy(r: Renderer, a: Action): Option<Message> {
    match a
    case ACreateOrNavigate(id, entry, height, legacy) => Some(Navigate(id, entry, AtLeastOne(height), legacy))
    case ASetInputTarget(id) => if FindView(r, id) == |r.views| || r.inputTarget == id then None else Some(SetInputTarget(id))
    case AResize(width, height) =>
      if width == 0 || height == 0 || (r.width == width && r.height == height) then None else Some(Resize(width, height))
    case ASetViewport(width, height) =>
      if width == 0 || height == 0 || (r.viewportWidth == width && r.viewportHeight == height) then None
      else Some(Viewport(width, height, r.epoch + 1))
    case ASetPointerInput(enabled) => if r.pointerInput == enabled then None else Some(PointerInput(enabled))
    case AResetPresentation => Some(Viewport(r.viewportWidth, r.viewportHeight, r.epoch + 1))
    case APostWeb(id, json) => if FindView(r, id) == |r.views| then None else Some(PostWeb(id, json))
    case ASetInputFocus(focused) => Some(Focus(focused))
    case ASetWindowActive(active) => Some(WindowActive(active))
    case ASetViewHidden(id, hidden, settle) =>
      var i := FindView(r, id);
      if i == |r.views| || (r.views[i].mirror.hidden == hidden && (hidden || !settle || r.views[i].settleColdOpen)) then None
      else Some(SetHidden(id, hidden, if hidden then r.epoch else r.epoch + 1, !hidden && settle))
    case ASetViewOrder(id, order) =>
      var i := FindView(r, id);
      if i == |r.views| || r.views[i].mirror.order == order then None else Some(SetOrder(id, order))
    case ADestroyView(id) => if FindView(r, id) == |r.views| then None else Some(DestroyView(id))
    case AInject(input) => Some(Inject(input))
    case _ => None
  }

  // Whether a message begins an epoch.
  predicate Begins(m: Message) {
    m.Viewport? || (m.SetHidden? && !m.hidden)
  }
}
