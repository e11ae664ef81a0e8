// Opening views, on values: src/Views/ViewOpenCoordinator.cpp, src/Views/ViewPresentationController.cpp and
// the open, fail, prepare and commit steps of src/Runtime/Runtime.cpp. `preparation` is the frame state's
// (src/Render/SharedFrameState.h); `calls` lists every CompleteLaunch call in order.
module ViewOpenModel {
  import opened Wrappers
  import opened Text
  import SharedFrameModel

  const OPEN_SECONDS: real := 30.0

  datatype Kind = Menu | Hud

  datatype Manifest = Manifest(id: string, kind: Kind, capturesInput: bool, pausesGame: bool, order: int)

  // ---- ViewPresentationController -------------------------------------------------------------------

  datatype Presentation = Presentation(
    instantiated: map<string, Manifest>, activeMenu: Option<string>, hudShown: set<string>, suspended: bool, changed: bool)

  datatype Layer = Layer(id: string, hidden: bool, z: int)

  function AddInstantiated(p: Presentation, m: Manifest): Presentation {
    p.(instantiated := p.instantiated[m.id := m], changed := true)
  }

  function OpenView(p: Presentation, id: string): (bool, Presentation) {
    if id !in p.instantiated then (false, p)
    else if p.instantiated[id].kind == Hud then
      (id !in p.hudShown, p.(hudShown := p.hudShown + {id}, changed := p.changed || id !in p.hudShown))
    else if p.suspended || p.activeMenu == Some(id) then (false, p)
    else (true, p.(activeMenu := Some(id), changed := true))
  }

  function CloseView(p: Presentation, id: string): (bool, Presentation) {
    if id in p.hudShown then (true, p.(hudShown := p.hudShown - {id}, changed := true))
    else if p.activeMenu == Some(id) then (true, p.(activeMenu := None, changed := true))
    else (false, p)
  }

  function RemoveInstantiated(p: Presentation, id: string): (bool, Presentation) {
    var (closed, u) := CloseView(p, id);
    (closed, if id in u.instantiated then u.(instantiated := u.instantiated - {id}, changed := true) else u)
  }

  function CloseActiveMenu(p: Presentation): (bool, Presentation) {
    if p.activeMenu.None? then (false, p) else (true, p.(activeMenu := None, changed := true))
  }

  function SetSuspended(p: Presentation, suspended: bool): (bool, Presentation) {
    if p.suspended == suspended then (false, p)
    else (true, p.(suspended := suspended, changed := true, activeMenu := if suspended then None else p.activeMenu))
  }

  predicate IsOpen(p: Presentation, id: string) {
    id in p.hudShown || p.activeMenu == Some(id)
  }

  function ActiveMenu(p: Presentation): Option<string> {
    if p.suspended then None else p.activeMenu
  }

  predicate DesiredVisible(p: Presentation) {
    !p.suspended && (p.hudShown != {} || p.activeMenu.Some?)
  }

  predicate DesiredCapture(p: Presentation) {
    !p.suspended && p.activeMenu.Some? && p.activeMenu.value in p.instantiated && p.instantiated[p.activeMenu.value].capturesInput
  }

  function Clamp(n: int, low: int, high: int): int {
    if n < low then low else if n > high then high else n
  }

  // The layer of one instantiated view.
  function LayerOf(p: Presentation, id: string): Layer
    requires id in p.instantiated
  {
    var m := p.instantiated[id];
    if m.kind == Hud then Layer(id, id !in p.hudShown || p.suspended, Clamp(m.order, 0, 999))
    else Layer(id, p.activeMenu != Some(id) || p.suspended, 1000)
  }

  // ---- the runtime ----------------------------------------------------------------------------------

  datatype Phase = Loading | Rendering | Prepared

  datatype MenuOpen = MenuOpen(view: string, deadline: real, requestId: nat, phase: Phase)

  datatype Readiness = Missing | Suspended | StillLoading | WaitingForInput | InputUnavailable | Ready

  datatype Completion = Completion(requestId: nat, ready: bool)

  // What the renderer knows of a view: src/Render/WebView2HostWebRenderer.cpp creates it hidden.
  datatype RendererView = RendererView(hidden: bool, order: int)

  // `manifests` is keyed by folded id; `loaded` holds the views whose document finished loading; `screen` is
  // the renderer's record of each view.
  datatype Runtime = Runtime(
    manifests: map<string, Manifest>, menu: Option<MenuOpen>, huds: set<string>, p: Presentation,
    preparation: SharedFrameModel.Preparation, loaded: set<string>, screen: map<string, RendererView>, now: real,
    calls: seq<Completion>)

  // What the engine, the renderer and the settings provider say during a step.
  datatype Env = Env(transitionOpen: bool, compositor: bool, hostAvailable: bool, attempted: bool, available: bool,
                     renderer: bool, suppressed: bool)

  function FindManifest(r: Runtime, id: string): Option<Manifest> {
    if Lower(id) in r.manifests then Some(r.manifests[Lower(id)]) else None
  }

  predicate Contains(r: Runtime, view: string) {
    (r.menu.Some? && r.menu.value.view == view) || view in r.huds
  }

  function CompleteLaunch(r: Runtime, requestId: nat, ready: bool): Runtime {
    r.(calls := r.calls + [Completion(requestId, ready)])
  }

  function Invalidate(r: Runtime): Runtime {
    r.(p := r.p.(changed := true))
  }

  function EndPreparation(r: Runtime, commit: bool): Runtime {
    r.(preparation := if commit then SharedFrameModel.Committed else SharedFrameModel.Idle)
  }

  // ---- the renderer's views ---------------------------------------------------------------------------

  // SetViewOrder and SetViewHidden; views the renderer does not know are ignored.
  datatype LayerCall = Order(id: string, z: int) | Hidden(id: string, hidden: bool, settle: bool)

  function Sent(screen: map<string, RendererView>, c: LayerCall): map<string, RendererView> {
    if c.id !in screen then screen
    else if c.Order? then screen[c.id := screen[c.id].(order := c.z)]
    else screen[c.id := screen[c.id].(hidden := c.hidden)]
  }

  function CreateOn(screen: map<string, RendererView>, id: string): map<string, RendererView> {
    if id in screen then screen else screen[id := RendererView(true, 0)]
  }

  predicate Preparing(r: Runtime) {
    r.menu.Some? && r.menu.value.phase != Loading
  }

  // While a menu's first frame is prepared, that menu alone of all menus is rendered.
  function PolicyLayer(r: Runtime, l: Layer): (p: Layer)
    ensures p.id == l.id && p.z == l.z
  {
    var m := FindManifest(r, l.id);
    if Preparing(r) && m.Some? && m.value.kind == Menu then l.(hidden := l.id != r.menu.value.view) else l
  }

  // What the policy wants of an instantiated view.
  function Wanted(r: Runtime, id: string): RendererView
    requires id in r.p.instantiated
  {
    var l := PolicyLayer(r, LayerOf(r.p, id));
    RendererView(l.hidden, l.z)
  }

  function Published(r: Runtime): map<string, RendererView> {
    map id | id in r.screen :: if id in r.p.instantiated then Wanted(r, id) else r.screen[id]
  }

  // ---- opening and failing ------------------------------------------------------------------------------

  // FailPendingOpen; an empty view stands for whichever is pending.
  function FailPending(r: Runtime, view: string): Runtime {
    if r.menu.None? || (view != "" && r.menu.value.view != view) then r else
    var opening := r.menu.value;
    var u := r.(menu := None);
    var v := Invalidate(if opening.phase != Loading then
                          EndPreparation(u.(screen := Sent(u.screen, Hidden(opening.view, true, false))), false)
                        else u);
    if opening.requestId != 0 && opening.phase != Prepared then CompleteLaunch(v, opening.requestId, false) else v
  }

  function ViewReadiness(r: Runtime, id: string, env: Env): Readiness {
    var m := FindManifest(r, id);
    if m.None? || id !in r.p.instantiated then Missing
    else if m.value.kind == Menu && r.p.suspended then Suspended
    else if m.value.kind == Menu && m.value.capturesInput && !env.attempted then WaitingForInput
    else if m.value.kind == Menu && m.value.capturesInput && !env.available then InputUnavailable
    else if id in r.loaded then Ready else StillLoading
  }

  // The part of ApplyViewPresentationPolicy that decides whether a menu may stay.
  function Permit(r: Runtime, env: Env): Runtime {
    var u := if DesiredCapture(r.p) && !env.available then CloseMenu(FailPending(r, "")) else r;
    if env.suppressed then u else CloseMenu(FailPending(u, ""))
  }

  // Then a changed presentation is published to the renderer.
  function Publish(r: Runtime): Runtime {
    if r.p.changed then r.(screen := Published(r), p := r.p.(changed := false)) else r
  }

  function ApplyPolicy(r: Runtime, env: Env): Runtime {
    if !env.renderer then r else Publish(Permit(r, env))
  }

  function CloseMenu(r: Runtime): Runtime {
    r.(p := CloseActiveMenu(r.p).1)
  }

  predicate CanTakeReady(r: Runtime, view: string, requestId: nat) {
    r.menu.Some? && r.menu.value.phase == Prepared && r.menu.value.view == view && r.menu.value.requestId == requestId
  }

  function OpenPreparedMenu(r: Runtime, view: string, requestId: nat, env: Env): Runtime {
    if !CanTakeReady(r, view, requestId) then r else
    var u := EndPreparation(r.(menu := None), true);
    ApplyPolicy(Invalidate(u.(p := OpenView(u.p, view).1)), env)
  }

  // Navigation of a new document starts its load anew and fails its pending open.
  function Navigate(r: Runtime, id: string): Runtime {
    var u := FailPending(r, id);
    u.(loaded := r.loaded - {id}, screen := CreateOn(u.screen, id))
  }

  function InstantiateView(r: Runtime, m: Manifest, env: Env): (bool, Runtime) {
    if m.id in r.p.instantiated then (true, r)
    else if !env.renderer then (false, r)
    else
      var u := Navigate(r, m.id);
      (true, u.(p := AddInstantiated(u.p, m)))
  }

  // A direct open supersedes the launcher that prepared the same view.
  function Supersede(r: Runtime): Runtime
    requires r.menu.Some?
  {
    var pending := r.menu.value;
    if pending.requestId == 0 then r else
    var u := if pending.phase != Prepared then CompleteLaunch(r, pending.requestId, false) else r;
    u.(menu := Some(pending.(requestId := 0, deadline := r.now + OPEN_SECONDS)))
  }

  function PrepareViewOpen(r: Runtime, id: string, requestId: nat, env: Env): (bool, Runtime) {
    var found := FindManifest(r, id);
    if found.None? then (false, r) else
    var m := found.value;
    if requestId != 0 && (m.kind != Menu || r.p.suspended) then (false, r)
    else if m.kind == Menu && env.transitionOpen then (false, r)
    else if !env.compositor || !env.hostAvailable then (false, r)
    else if m.kind == Menu && m.capturesInput && env.attempted && !env.available then (false, r)
    else if requestId == 0 && Contains(r, m.id) then
      if r.menu.None? || r.menu.value.view != m.id then (true, r) else
      var u := Supersede(r);
      (true, if u.menu.value.phase == Prepared then OpenPreparedMenu(u, m.id, 0, env) else u)
    else if requestId == 0 && IsOpen(r.p, m.id) then
      (true, if m.kind == Menu then FailPending(r, "") else r)
    else
      var (made, u) := InstantiateView(r, m, env);
      if !made then (false, u)
      else if m.kind == Hud then (true, u.(huds := u.huds + {m.id}))
      else (true, FailPending(u, "").(menu := Some(MenuOpen(m.id, r.now + OPEN_SECONDS, requestId, Loading))))
  }

  // ApplyPresentationRequests, for a launcher's request.
  function LauncherOpen(r: Runtime, id: string, requestId: nat, env: Env): Runtime {
    var (ok, u) := PrepareViewOpen(r, id, requestId, env);
    if ok then u else CompleteLaunch(u, requestId, false)
  }

  // For a plain open, or the delayed activation of launcher `requestId`.
  function OpenRequest(r: Runtime, id: string, requestId: nat, env: Env): Runtime {
    if requestId != 0 then OpenPreparedMenu(r, id, requestId, env) else PrepareViewOpen(r, id, 0, env).1
  }

  function CloseRequest(r: Runtime, id: string): Runtime {
    var u := FailPending(r, id);
    u.(huds := u.huds - {id}, p := CloseView(u.p, id).1)
  }

  // UpdatePendingOpen: `frameReady` is PreparedFrameReady's answer, `accepted` the settings provider's.
  function UpdatePending(r: Runtime, frameReady: bool, accepted: bool, env: Env): Runtime {
    if r.menu.None? then r else
    var pending := r.menu.value;
    var readiness := ViewReadiness(r, pending.view, env);
    if readiness == Missing || readiness == InputUnavailable then FailPending(r, "")
    else if pending.phase == Rendering && env.compositor && frameReady then
      var u := r.(menu := Some(pending.(phase := Prepared)));
      if pending.requestId == 0 then OpenPreparedMenu(u, pending.view, 0, env) else
      var v := CompleteLaunch(u, pending.requestId, true);
      if accepted then v.(menu := Some(pending.(phase := Prepared, deadline := r.now + OPEN_SECONDS))) else FailPending(v, "")
    else if r.now >= pending.deadline then FailPending(r, "")
    else r
  }

  function ReadyHuds(r: Runtime, env: Env): set<string> {
    set h | h in r.huds && ViewReadiness(r, h, env) == Ready
  }

  function KeptHuds(r: Runtime, env: Env): set<string> {
    set h | h in r.huds && ViewReadiness(r, h, env) != Ready && ViewReadiness(r, h, env) != Missing
  }

  predicate MenuReady(r: Runtime, env: Env) {
    r.menu.Some? && r.menu.value.phase == Loading && ViewReadiness(r, r.menu.value.view, env) == Ready
  }

  function TakeReady(r: Runtime, env: Env): Runtime {
    var u := r.(huds := KeptHuds(r, env));
    if MenuReady(r, env) then u.(menu := Some(r.menu.value.(phase := Rendering))) else u
  }

  // One id TakeReady returned: the pending menu starts preparing its frame, a HUD is shown.
  function DriveOne(r: Runtime, id: string): Runtime {
    if r.menu.Some? && r.menu.value.view == id then Invalidate(r.(preparation := SharedFrameModel.Rendering))
    else r.(p := OpenView(r.p, id).1)
  }

  function DriveAll(r: Runtime, ids: seq<string>): Runtime
    decreases |ids|
  {
    if ids == [] then r else DriveOne(DriveAll(r, ids[..|ids| - 1]), ids[|ids| - 1])
  }

  // The HUDs in the hash set's order, then the menu.
  predicate ReadyOrder(r: Runtime, env: Env, ids: seq<string>) {
    var huds := if MenuReady(r, env) && ids != [] then ids[..|ids| - 1] else ids;
    && (MenuReady(r, env) ==> ids != [] && ids[|ids| - 1] == r.menu.value.view)
    && (forall h | h in ReadyHuds(r, env) :: h in huds) && (forall h | h in huds :: h in ReadyHuds(r, env))
  }

  // DrivePendingOpen
  function DrivePending(r: Runtime, env: Env, ids: seq<string>): Runtime
    requires ReadyOrder(r, env, ids)
  {
    DriveAll(TakeReady(r, env), ids)
  }
}
