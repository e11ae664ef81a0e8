// The launcher handshake and the presentation rules, over every run.
module ViewOpenProofs {
  import opened Wrappers
  import opened Text
  import SharedFrameModel
  import opened ViewOpenModel

  // Each launcher request that entered: the view it asked for and when.
  datatype Launch = Launch(view: string, entered: real)

  datatype World = World(r: Runtime, launches: map<nat, Launch>)

  datatype Action =
    | ALaunch(view: string, requestId: nat, env: Env)
    | AOpen(view: string, activation: nat, env: Env)
    | AClose(view: string)
    | AFail(pendingView: string)                   // resize, input loss, renderer trouble, Back while pending
    | ATick(frameReady: bool, accepted: bool, env: Env)
    | ACommit(env: Env, order: seq<string>)
    | ASuspend(suspend: bool)
    | ALoaded(view: string, failed: bool)
    | ANavigate(view: string)
    | ATearDown(view: string, env: Env)
    | AHostLost(env: Env)
    | ARequeueHud(view: string)
    | AInvalidate                                  // a replacement host needs the complete policy
    | ACloseActive                                 // Back from the active menu
    | ATime(to: real)
    | ADrawn                                       // the compositor promotes a committed frame

  function Commit(r: Runtime, env: Env, order: seq<string>): Runtime
    requires ReadyOrder(r, env, order)
  {
    ApplyPolicy(DrivePending(r, env, order), env)
  }

  function Suspend(r: Runtime, suspend: bool): Runtime {
    var (changed, p) := SetSuspended(r.p, suspend);
    var u := r.(p := p);
    if changed && suspend then FailPending(u, "") else u
  }

  function Removed(r: Runtime, view: string): Runtime {
    var u := FailPending(r, view);
    u.(huds := u.huds - {view}, screen := u.screen - {view}, p := RemoveInstantiated(u.p, view).1)
  }

  function TearDown(r: Runtime, view: string, env: Env): Runtime {
    if RemoveInstantiated(r.p, view).0 then ApplyPolicy(Removed(r, view), env) else Removed(r, view)
  }

  function HostLost(r: Runtime, env: Env): Runtime {
    var u := CloseMenu(FailPending(r, ""));
    ApplyPolicy(u.(p := SetSuspended(u.p, true).1), env)
  }

  // A shown HUD goes back to waiting for its document when the host is replaced.
  function RequeueHud(r: Runtime, view: string): Runtime {
    var u := if view in r.p.hudShown then r.(p := CloseView(r.p, view).1, huds := r.huds + {view}) else r;
    Navigate(u, view)
  }

  // Launcher ids are never zero and never reused; time moves forward.
  predicate Enabled(w: World, a: Action) {
    match a
    case ALaunch(_, id, _) => id != 0 && id !in w.launches
    case ACommit(env, order) => ReadyOrder(w.r, env, order)
    case ATime(to) => to >= w.r.now
    case _ => true
  }

  function Next(w: World, a: Action): World
    requires Enabled(w, a)
  {
    var r := w.r;
    match a
    case ALaunch(view, id, env) => World(LauncherOpen(r, view, id, env), w.launches[id := Launch(view, r.now)])
    case AOpen(view, id, env) => w.(r := OpenRequest(r, view, id, env))
    case AClose(view) => w.(r := CloseRequest(r, view))
    case AFail(view) => w.(r := FailPending(r, view))
    case ATick(frameReady, accepted, env) => w.(r := UpdatePending(r, frameReady, accepted, env))
    case ACommit(env, order) => w.(r := Commit(r, env, order))
    case ASuspend(suspend) => w.(r := Suspend(r, suspend))
    case ALoaded(view, failed) => w.(r := if failed then FailPending(r, view) else r.(loaded := r.loaded + {view}))
    case ANavigate(view) => w.(r := Navigate(r, view))
    case ATearDown(view, env) => w.(r := TearDown(r, view, env))
    case AHostLost(env) => w.(r := HostLost(r, env))
    case ARequeueHud(view) => w.(r := RequeueHud(r, view))
    case AInvalidate => w.(r := Invalidate(r))
    case ACloseActive => w.(r := CloseMenu(r))
    case ATime(to) => w.(r := r.(now := to))
    case ADrawn => w.(r := if r.preparation == SharedFrameModel.Committed then r.(preparation := SharedFrameModel.Idle) else r)
  }

  // ---- invariants ------------------------------------------------------------------------------------

  function Count(calls: seq<Completion>, id: nat): nat
    decreases |calls|
  {
    if calls == [] then 0 else Count(calls[..|calls| - 1], id) + if calls[|calls| - 1].requestId == id then 1 else 0
  }

  // The launcher request whose answer is still owed.
  predicate Owes(r: Runtime, id: nat) {
    r.menu.Some? && r.menu.value.requestId == id && r.menu.value.phase != Prepared
  }

  ghost predicate CallsOk(w: World) {
    forall id: nat | id != 0 :: Count(w.r.calls, id) == if id in w.launches && !Owes(w.r, id) then 1 else 0
  }

  // The manifest a view id resolves to is its own.
  predicate Known(manifests: map<string, Manifest>, id: string, kind: Kind) {
    Lower(id) in manifests && manifests[Lower(id)].id == id && manifests[Lower(id)].kind == kind
  }

  predicate MenuOk(w: World) {
    w.r.menu.Some? ==>
      var m := w.r.menu.value;
      && Known(w.r.manifests, m.view, Menu)
      && (m.requestId != 0 ==>
            && m.requestId in w.launches && SameFolded(w.launches[m.requestId].view, m.view)
            && (if m.phase == Prepared then Completion(m.requestId, true) in w.r.calls
                else m.deadline == w.launches[m.requestId].entered + OPEN_SECONDS))
  }

  predicate PreparationOk(r: Runtime) {
    r.preparation == SharedFrameModel.Rendering <==> r.menu.Some? && r.menu.value.phase != Loading
  }

  // Only instantiated views are presented, a menu as the menu and a HUD as a HUD, and no menu while suspended.
  predicate PresentationOk(r: Runtime) {
    && (forall k | k in r.manifests :: k == Lower(r.manifests[k].id))
    && (forall id | id in r.p.instantiated :: Known(r.manifests, id, r.p.instantiated[id].kind) && r.p.instantiated[id] == r.manifests[Lower(id)])
    && (r.p.activeMenu.Some? ==> !r.p.suspended && r.p.activeMenu.value in r.p.instantiated && r.p.instantiated[r.p.activeMenu.value].kind == Menu)
    && (forall h | h in r.p.hudShown :: h in r.p.instantiated && r.p.instantiated[h].kind == Hud)
    && (forall h | h in r.huds :: Known(r.manifests, h, Hud))
  }

  ghost predicate Inv(w: World) {
    CallsOk(w) && MenuOk(w) && PreparationOk(w.r) && PresentationOk(w.r)
  }

  // ---- the pieces ----------------------------------------------------------------------------------------

  lemma CountAdd(calls: seq<Completion>, c: Completion, id: nat)
    ensures Count(calls + [c], id) == Count(calls, id) + if c.requestId == id then 1 else 0
  {
    assert (calls + [c])[..|calls|] == calls;
  }

  lemma FailCalls(w: World, view: string)
    requires CallsOk(w) && MenuOk(w)
    ensures CallsOk(w.(r := FailPending(w.r, view)))
  {
    hide Count, FailPending, Owes, Known;
    var v := w.(r := FailPending(w.r, view));
    forall id: nat | id != 0 ensures Count(v.r.calls, id) == if id in v.launches && !Owes(v.r, id) then 1 else 0 {
      assert Count(w.r.calls, id) == if id in w.launches && !Owes(w.r, id) then 1 else 0;
      FailCount(w, view, id);
    }
  }

  lemma FailCount(w: World, view: string, id: nat)
    requires id != 0 && (w.r.menu.Some? && w.r.menu.value.requestId != 0 ==> w.r.menu.value.requestId in w.launches)
    requires Count(w.r.calls, id) == if id in w.launches && !Owes(w.r, id) then 1 else 0
    ensures Count(FailPending(w.r, view).calls, id) == if id in w.launches && !Owes(FailPending(w.r, view), id) then 1 else 0
  {
    hide Count;
    if w.r.menu.Some? { CountAdd(w.r.calls, Completion(w.r.menu.value.requestId, false), id); }
  }

  lemma FailKeeps(w: World, view: string)
    requires Inv(w)
    ensures Inv(w.(r := FailPending(w.r, view)))
    ensures var s := FailPending(w.r, view);
            s == w.r.(menu := s.menu, preparation := s.preparation, calls := s.calls, screen := s.screen, p := w.r.p.(changed := s.p.changed))
            && (s.menu == w.r.menu || s.menu == None)
    ensures view == "" ==> FailPending(w.r, view).menu == None
  {
    hide Known, CallsOk;
    FailCalls(w, view);
  }

  lemma ScreenKeeps(w: World, screen: map<string, RendererView>)
    requires Inv(w)
    ensures Inv(w.(r := w.r.(screen := screen)))
  {
    hide Known;
  }

  // Changes to the presentation that respect its rules change nothing else.
  lemma PresentKeeps(w: World, p: Presentation, huds: set<string>, loaded: set<string>)
    requires Inv(w) && PresentationOk(w.r.(p := p, huds := huds, loaded := loaded))
    ensures Inv(w.(r := w.r.(p := p, huds := huds, loaded := loaded)))
  {
    hide Known;
  }

  lemma PermitKeeps(w: World, env: Env)
    requires Inv(w)
    ensures Inv(w.(r := Permit(w.r, env)))
  {
    hide Inv, FailPending;
    var r := w.r;
    FailKeeps(w, "");
    ClosingKeeps(w.(r := FailPending(r, "")));
    var u := w.(r := if DesiredCapture(r.p) && !env.available then CloseMenu(FailPending(r, "")) else r);
    FailKeeps(u, "");
    ClosingKeeps(u.(r := FailPending(u.r, "")));
  }

  lemma PolicyKeeps(w: World, env: Env)
    requires Inv(w)
    ensures Inv(w.(r := ApplyPolicy(w.r, env)))
  {
    hide Inv, Permit, Published;
    PermitKeeps(w, env);
    var v := w.(r := Permit(w.r, env));
    ScreenKeeps(v, Published(v.r));
    ChangedKeeps(v.(r := v.r.(screen := Published(v.r))), false);
  }

  lemma ClosingKeeps(w: World)
    requires Inv(w)
    ensures Inv(w.(r := CloseMenu(w.r)))
  {
    PresentKeeps(w, CloseActiveMenu(w.r.p).1, w.r.huds, w.r.loaded);
  }

  lemma ChangedKeeps(w: World, changed: bool)
    requires Inv(w)
    ensures Inv(w.(r := w.r.(p := w.r.p.(changed := changed))))
  {
    PresentKeeps(w, w.r.p.(changed := changed), w.r.huds, w.r.loaded);
  }

  lemma OpenViewOk(r: Runtime, id: string)
    requires PresentationOk(r)
    ensures PresentationOk(r.(p := OpenView(r.p, id).1))
  {
    hide Known;
  }

  lemma OpenPreparedKeeps(w: World, view: string, requestId: nat, env: Env)
    requires Inv(w)
    ensures Inv(w.(r := OpenPreparedMenu(w.r, view, requestId, env)))
  {
    hide Known, ApplyPolicy;
    if CanTakeReady(w.r, view, requestId) {
      var u := w.(r := EndPreparation(w.r.(menu := None), true));
      assert Inv(u);
      OpenViewOk(u.r, view);
      PresentKeeps(u, OpenView(u.r.p, view).1, u.r.huds, u.r.loaded);
      var v := u.(r := u.r.(p := OpenView(u.r.p, view).1));
      ChangedKeeps(v, true);
      PolicyKeeps(v.(r := Invalidate(v.r)), env);
    }
  }

  lemma NavigateKeeps(w: World, view: string)
    requires Inv(w)
    ensures Inv(w.(r := Navigate(w.r, view)))
  {
    hide Inv, PresentationOk, FailPending, CreateOn;
    FailKeeps(w, view);
    var u := w.(r := FailPending(w.r, view));
    LoadedKeeps(u, w.r.loaded - {view});
    ScreenKeeps(u.(r := u.r.(loaded := w.r.loaded - {view})), CreateOn(u.r.screen, view));
  }

  lemma LoadedKeeps(w: World, loaded: set<string>)
    requires Inv(w)
    ensures Inv(w.(r := w.r.(loaded := loaded)))
  {
    PresentKeeps(w, w.r.p, w.r.huds, loaded);
  }

  lemma InstantiateKeeps(w: World, m: Manifest, env: Env)
    requires Inv(w) && Lower(m.id) in w.r.manifests && w.r.manifests[Lower(m.id)] == m
    ensures var (made, s) := InstantiateView(w.r, m, env);
            && Inv(w.(r := s)) && s.manifests == w.r.manifests && s.now == w.r.now
  {
    hide Navigate;
    if m.id !in w.r.p.instantiated && env.renderer {
      NavigateKeeps(w, m.id);
      NavigateFields(w, m.id);
      var u := Navigate(w.r, m.id);
      PresentKeeps(w.(r := u), AddInstantiated(u.p, m), u.huds, u.loaded);
    }
  }

  lemma NavigateFields(w: World, view: string)
    requires Inv(w)
    ensures var s := Navigate(w.r, view);
            s.manifests == w.r.manifests && s.now == w.r.now && s.huds == w.r.huds && s.p == w.r.p.(changed := s.p.changed)
  {
    FailKeeps(w, view);
  }

  lemma SupersedeCalls(w: World)
    requires CallsOk(w) && MenuOk(w) && w.r.menu.Some?
    ensures CallsOk(w.(r := Supersede(w.r)))
  {
    hide Count, Supersede, Owes, Known;
    var v := w.(r := Supersede(w.r));
    forall id: nat | id != 0 ensures Count(v.r.calls, id) == if id in v.launches && !Owes(v.r, id) then 1 else 0 {
      assert Count(w.r.calls, id) == if id in w.launches && !Owes(w.r, id) then 1 else 0;
      SupersedeCount(w, id);
    }
  }

  lemma SupersedeCount(w: World, id: nat)
    requires id != 0 && w.r.menu.Some? && (w.r.menu.value.requestId != 0 ==> w.r.menu.value.requestId in w.launches)
    requires Count(w.r.calls, id) == if id in w.launches && !Owes(w.r, id) then 1 else 0
    ensures Count(Supersede(w.r).calls, id) == if id in w.launches && !Owes(Supersede(w.r), id) then 1 else 0
  {
    hide Count;
    CountAdd(w.r.calls, Completion(w.r.menu.value.requestId, false), id);
  }

  lemma SupersedeKeeps(w: World)
    requires Inv(w) && w.r.menu.Some?
    ensures Inv(w.(r := Supersede(w.r)))
    ensures var s := Supersede(w.r); s.menu.Some? && s.menu.value.view == w.r.menu.value.view && s.menu.value.phase == w.r.menu.value.phase
  {
    hide Known, CallsOk;
    SupersedeCalls(w);
  }

  // A plain open: nothing is owed that was not.
  lemma PlainOpenKeeps(w: World, id: string, env: Env)
    requires Inv(w)
    ensures Inv(w.(r := PrepareViewOpen(w.r, id, 0, env).1))
  {
    hide Inv, Supersede, OpenPreparedMenu, InstantiateView, FailPending;
    var found := FindManifest(w.r, id);
    if found.Some? {
      var m := found.value;
      FailKeeps(w, "");
      if w.r.menu.Some? {
        SupersedeKeeps(w);
        OpenPreparedKeeps(w.(r := Supersede(w.r)), m.id, 0, env);
      }
      FoundIsOwn(w, id);
      InstantiateKeeps(w, m, env);
      var u := w.(r := InstantiateView(w.r, m, env).1);
      QueueHudKeeps(u, m);
      FailKeeps(u, "");
      QueuePlainKeeps(u.(r := FailPending(u.r, "")), m);
      assert FailPending(u.r, "").now == u.r.now;
    }
  }

  lemma FoundIsOwn(w: World, id: string)
    requires Inv(w) && FindManifest(w.r, id).Some?
    ensures var m := FindManifest(w.r, id).value;
            Lower(m.id) == Lower(id) && Lower(m.id) in w.r.manifests && w.r.manifests[Lower(m.id)] == m
  {}

  lemma QueueHudKeeps(w: World, m: Manifest)
    requires Inv(w) && Lower(m.id) in w.r.manifests && w.r.manifests[Lower(m.id)] == m
    ensures m.kind == Hud ==> Inv(w.(r := w.r.(huds := w.r.huds + {m.id})))
  {
    if m.kind == Hud { PresentKeeps(w, w.r.p, w.r.huds + {m.id}, w.r.loaded); }
  }

  lemma QueuePlainKeeps(w: World, m: Manifest)
    requires Inv(w) && Lower(m.id) in w.r.manifests && w.r.manifests[Lower(m.id)] == m && w.r.menu == None
    ensures m.kind == Menu ==> Inv(w.(r := w.r.(menu := Some(MenuOpen(m.id, w.r.now + OPEN_SECONDS, 0, Loading)))))
  {}

  // A launcher's open: its one answer is given now or owed by the pending menu.
  lemma LauncherKeeps(w: World, id: string, requestId: nat, env: Env)
    requires Inv(w) && requestId != 0 && requestId !in w.launches
    ensures Inv(World(LauncherOpen(w.r, id, requestId, env), w.launches[requestId := Launch(id, w.r.now)]))
  {
    hide Inv, InstantiateView, FailPending, CompleteLaunch;
    RefuseKeeps(w, id, requestId);
    var found := FindManifest(w.r, id);
    if found.Some? {
      var m := found.value;
      FoundIsOwn(w, id);
      InstantiateKeeps(w, m, env);
      var u := w.(r := InstantiateView(w.r, m, env).1);
      RefuseKeeps(u, id, requestId);
      FailKeeps(u, "");
      QueueLaunchKeeps(u.(r := FailPending(u.r, "")), m, id, requestId);
      assert FailPending(u.r, "").now == u.r.now;
    }
  }

  lemma RefuseKeeps(w: World, id: string, requestId: nat)
    requires Inv(w) && requestId != 0 && requestId !in w.launches
    ensures Inv(World(CompleteLaunch(w.r, requestId, false), w.launches[requestId := Launch(id, w.r.now)]))
  {
    hide Known;
    forall other: nat { CountAdd(w.r.calls, Completion(requestId, false), other); }
  }

  lemma QueueLaunchKeeps(w: World, m: Manifest, id: string, requestId: nat)
    requires Inv(w) && Lower(m.id) in w.r.manifests && w.r.manifests[Lower(m.id)] == m && w.r.menu == None
    requires requestId != 0 && requestId !in w.launches && Lower(m.id) == Lower(id)
    ensures m.kind == Menu ==>
              Inv(World(w.r.(menu := Some(MenuOpen(m.id, w.r.now + OPEN_SECONDS, requestId, Loading))), w.launches[requestId := Launch(id, w.r.now)]))
  {}

  lemma TickKeeps(w: World, frameReady: bool, accepted: bool, env: Env)
    requires Inv(w)
    ensures Inv(w.(r := UpdatePending(w.r, frameReady, accepted, env)))
  {
    hide Inv, OpenPreparedMenu, FailPending, CompleteLaunch;
    FailKeeps(w, "");
    if w.r.menu.Some? && w.r.menu.value.phase == Rendering {
      var pending := w.r.menu.value;
      var u := w.r.(menu := Some(pending.(phase := Prepared)));
      PreparedKeeps(w, w.r.now + OPEN_SECONDS);
      if pending.requestId == 0 {
        OpenPreparedKeeps(w.(r := u), pending.view, 0, env);
      } else {
        FailKeeps(w.(r := CompleteLaunch(u, pending.requestId, true)), "");
        assert CompleteLaunch(u, pending.requestId, true).(menu := Some(pending.(phase := Prepared, deadline := w.r.now + OPEN_SECONDS)))
               == CompleteLaunch(u.(menu := Some(pending.(phase := Prepared, deadline := w.r.now + OPEN_SECONDS))), pending.requestId, true) by {
          LaunchFields(u, pending, w.r.now + OPEN_SECONDS);
        }
      }
    }
  }

  lemma LaunchFields(u: Runtime, pending: MenuOpen, deadline: real)
    ensures CompleteLaunch(u, pending.requestId, true).(menu := Some(pending.(phase := Prepared, deadline := deadline)))
            == CompleteLaunch(u.(menu := Some(pending.(phase := Prepared, deadline := deadline))), pending.requestId, true)
  {}

  // The frame is ready: the launcher is told, once, whichever way it answers.
  lemma PreparedKeeps(w: World, deadline: real)
    requires Inv(w) && w.r.menu.Some? && w.r.menu.value.phase == Rendering
    ensures var pending := w.r.menu.value; var u := w.r.(menu := Some(pending.(phase := Prepared)));
            && (pending.requestId == 0 ==> Inv(w.(r := u)))
            && (pending.requestId != 0 ==>
                  && Inv(w.(r := CompleteLaunch(u, pending.requestId, true)))
                  && Inv(w.(r := CompleteLaunch(u.(menu := Some(pending.(phase := Prepared, deadline := deadline))), pending.requestId, true))))
  {
    hide Known;
    forall id: nat { CountAdd(w.r.calls, Completion(w.r.menu.value.requestId, true), id); }
  }

  // ---- driving what is ready ------------------------------------------------------------------------------

  // Showing ready HUDs, then, if the menu's page is ready, preparing its frame.
  lemma {:induction false} DriveHuds(w: World, ids: seq<string>, menu: Option<string>)
    requires Inv(w) && (w.r.menu.Some? ==> Known(w.r.manifests, w.r.menu.value.view, Menu))
    requires forall h | h in ids :: Known(w.r.manifests, h, Hud)
    ensures Inv(w.(r := DriveAll(w.r, ids)))
    ensures var s := DriveAll(w.r, ids); s == w.r.(p := s.p)
    decreases |ids|
  {
    hide Inv;
    if ids != [] {
      var front, h := ids[..|ids| - 1], ids[|ids| - 1];
      DriveHuds(w, front, menu);
      var u := DriveAll(w.r, front);
      assert h in ids;
      ShowHud(w.(r := u), h);
    }
  }

  lemma ShowHud(w: World, h: string)
    requires Inv(w) && Known(w.r.manifests, h, Hud)
    ensures DriveOne(w.r, h) == w.r.(p := OpenView(w.r.p, h).1) && Inv(w.(r := DriveOne(w.r, h)))
  {
    OpenViewOk(w.r, h);
    PresentKeeps(w, OpenView(w.r.p, h).1, w.r.huds, w.r.loaded);
  }

  lemma DriveKeeps(w: World, env: Env, order: seq<string>)
    requires Inv(w) && ReadyOrder(w.r, env, order)
    ensures Inv(w.(r := DrivePending(w.r, env, order)))
  {
    hide ViewReadiness, OpenView;
    ReadyIsQueued(w, env, order);
    var kept := w.(r := w.r.(huds := KeptHuds(w.r, env)));
    PresentKeeps(w, w.r.p, KeptHuds(w.r, env), w.r.loaded);
    if MenuReady(w.r, env) {
      var huds := order[..|order| - 1];
      DriveHuds(kept, huds, None);
      var u := DriveAll(kept.r, huds);
      DriveCommutes(kept.r, huds, w.r.menu.value.(phase := Rendering));
      assert w.r.menu == u.menu;
      PrepareKeeps(w.(r := u));
    } else {
      DriveHuds(kept, order, None);
    }
  }

  // The HUDs among what TakeReady returned.
  function HudsOf(r: Runtime, env: Env, order: seq<string>): seq<string> {
    if MenuReady(r, env) && order != [] then order[..|order| - 1] else order
  }

  lemma ReadyIsQueued(w: World, env: Env, order: seq<string>)
    requires Inv(w) && ReadyOrder(w.r, env, order)
    ensures MenuReady(w.r, env) ==> order != [] && order[|order| - 1] == w.r.menu.value.view
    ensures forall h | h in HudsOf(w.r, env, order) ::
              Known(w.r.manifests, h, Hud) && (w.r.menu.Some? ==> h != w.r.menu.value.view)
  {
    hide ViewReadiness;
    forall h | h in HudsOf(w.r, env, order)
      ensures Known(w.r.manifests, h, Hud) && (w.r.menu.Some? ==> h != w.r.menu.value.view)
    {
      assert h in ReadyHuds(w.r, env);
      assert h in w.r.huds;
    }
  }

  // Marking the menu as rendering first makes no difference to the HUDs.
  lemma {:induction false} DriveCommutes(r: Runtime, ids: seq<string>, m: MenuOpen)
    requires r.menu.Some? && m.view == r.menu.value.view && forall h | h in ids :: h != m.view
    ensures DriveAll(r.(menu := Some(m)), ids) == DriveAll(r, ids).(menu := Some(m))
    ensures DriveAll(r, ids).menu == r.menu
    decreases |ids|
  {
    hide OpenView;
    if ids != [] {
      var front := ids[..|ids| - 1];
      forall h | h in front ensures h != m.view { assert h in ids; }
      DriveCommutes(r, front, m);
      assert ids[|ids| - 1] in ids;
    }
  }

  lemma PrepareKeeps(w: World)
    requires Inv(w) && w.r.menu.Some? && w.r.menu.value.phase == Loading
    ensures var m := w.r.menu.value; Inv(w.(r := DriveOne(w.r.(menu := Some(m.(phase := Rendering))), m.view)))
  {
    hide Known;
    var m := w.r.menu.value;
    var v := w.(r := DriveOne(w.r.(menu := Some(m.(phase := Rendering))), m.view));
    assert forall id: nat :: Owes(v.r, id) == Owes(w.r, id);
  }

  // ---- the rest of the actions -----------------------------------------------------------------------------

  lemma CloseViewOk(r: Runtime, id: string)
    requires PresentationOk(r)
    ensures PresentationOk(r.(p := CloseView(r.p, id).1)) && PresentationOk(r.(p := RemoveInstantiated(r.p, id).1))
    ensures forall huds | huds <= r.huds :: PresentationOk(r.(p := CloseView(r.p, id).1, huds := huds))
    ensures forall huds | huds <= r.huds :: PresentationOk(r.(p := RemoveInstantiated(r.p, id).1, huds := huds))
  {
    hide PresentationOk, CloseView, RemoveInstantiated;
    forall huds | huds <= r.huds
      ensures PresentationOk(r.(p := CloseView(r.p, id).1, huds := huds)) && PresentationOk(r.(p := RemoveInstantiated(r.p, id).1, huds := huds))
    {
      ClosedOk(r, id, huds);
      RemovedOk(r, id, huds);
    }
    assert r.(p := CloseView(r.p, id).1, huds := r.huds) == r.(p := CloseView(r.p, id).1);
    assert r.(p := RemoveInstantiated(r.p, id).1, huds := r.huds) == r.(p := RemoveInstantiated(r.p, id).1);
  }

  lemma ClosedOk(r: Runtime, id: string, huds: set<string>)
    requires PresentationOk(r) && huds <= r.huds
    ensures PresentationOk(r.(p := CloseView(r.p, id).1, huds := huds))
  {
    hide Known;
  }

  lemma RemovedOk(r: Runtime, id: string, huds: set<string>)
    requires PresentationOk(r) && huds <= r.huds
    ensures PresentationOk(r.(p := RemoveInstantiated(r.p, id).1, huds := huds))
  {
    hide Known;
  }

  lemma CloseKeeps(w: World, view: string)
    requires Inv(w)
    ensures Inv(w.(r := CloseRequest(w.r, view))) && Inv(w.(r := Removed(w.r, view)))
  {
    hide CloseView, RemoveInstantiated, CallsOk, MenuOk, PreparationOk, FailPending;
    FailKeeps(w, view);
    var u := FailPending(w.r, view);
    CloseViewOk(u, view);
    PresentKeeps(w.(r := u), CloseView(u.p, view).1, u.huds - {view}, u.loaded);
    PresentKeeps(w.(r := u), RemoveInstantiated(u.p, view).1, u.huds - {view}, u.loaded);
    ScreenKeeps(w.(r := u.(p := RemoveInstantiated(u.p, view).1, huds := u.huds - {view})), u.screen - {view});
  }

  lemma TearDownKeeps(w: World, view: string, env: Env)
    requires Inv(w)
    ensures Inv(w.(r := TearDown(w.r, view, env)))
  {
    hide Inv, Removed, RemoveInstantiated, ApplyPolicy;
    CloseKeeps(w, view);
    PolicyKeeps(w.(r := Removed(w.r, view)), env);
  }

  lemma SuspendKeeps(w: World, suspend: bool, env: Env)
    requires Inv(w)
    ensures Inv(w.(r := Suspend(w.r, suspend))) && Inv(w.(r := HostLost(w.r, env)))
  {
    hide CallsOk, MenuOk, PreparationOk, FailPending, Known, ApplyPolicy;
    PresentKeeps(w, SetSuspended(w.r.p, suspend).1, w.r.huds, w.r.loaded);
    FailKeeps(w.(r := w.r.(p := SetSuspended(w.r.p, suspend).1)), "");
    FailKeeps(w, "");
    ClosingKeeps(w.(r := FailPending(w.r, "")));
    var u := CloseMenu(FailPending(w.r, ""));
    PresentKeeps(w.(r := u), SetSuspended(u.p, true).1, u.huds, u.loaded);
    PolicyKeeps(w.(r := u.(p := SetSuspended(u.p, true).1)), env);
  }

  lemma RequeueKeeps(w: World, view: string)
    requires Inv(w)
    ensures Inv(w.(r := RequeueHud(w.r, view)))
  {
    hide CallsOk, MenuOk, PreparationOk, Navigate;
    if view in w.r.p.hudShown {
      CloseViewOk(w.r, view);
      PresentKeeps(w, CloseView(w.r.p, view).1, w.r.huds + {view}, w.r.loaded);
      NavigateKeeps(w.(r := w.r.(p := CloseView(w.r.p, view).1, huds := w.r.huds + {view})), view);
    } else {
      NavigateKeeps(w, view);
    }
  }

  lemma NextKeeps(w: World, a: Action)
    requires Inv(w) && Enabled(w, a)
    ensures Inv(Next(w, a))
  {
    hide Inv;
    match a
    case ALaunch(view, id, env) => LauncherKeeps(w, view, id, env);
    case AOpen(view, id, env) => if id != 0 { OpenPreparedKeeps(w, view, id, env); } else { PlainOpenKeeps(w, view, env); }
    case AClose(view) => CloseKeeps(w, view);
    case AFail(view) => FailKeeps(w, view);
    case ATick(frameReady, accepted, env) => TickKeeps(w, frameReady, accepted, env);
    case ACommit(env, order) => DriveKeeps(w, env, order); PolicyKeeps(w.(r := DrivePending(w.r, env, order)), env);
    case ASuspend(suspend) => SuspendKeeps(w, suspend, Env(false, false, false, false, false, false, false));
    case ALoaded(view, failed) => FailKeeps(w, view); LoadedKeeps(w, w.r.loaded + {view});
    case ANavigate(view) => NavigateKeeps(w, view);
    case ATearDown(view, env) => TearDownKeeps(w, view, env);
    case AHostLost(env) => SuspendKeeps(w, true, env);
    case ARequeueHud(view) => RequeueKeeps(w, view);
    case AInvalidate => ChangedKeeps(w, true);
    case ACloseActive => ClosingKeeps(w);
    case ATime(to) => TimeKeeps(w, to);
    case ADrawn => if w.r.preparation == SharedFrameModel.Committed { DrawnKeeps(w); }
  }

  lemma TimeKeeps(w: World, to: real)
    requires Inv(w)
    ensures Inv(w.(r := w.r.(now := to)))
  {}

  lemma DrawnKeeps(w: World)
    requires Inv(w) && w.r.preparation == SharedFrameModel.Committed
    ensures Inv(w.(r := w.r.(preparation := SharedFrameModel.Idle)))
  {}

  // ---- runs ------------------------------------------------------------------------------------------------

  predicate Leads(w: World, a: Action, v: World) {
    Enabled(w, a) && v == Next(w, a)
  }

  function Start(manifests: map<string, Manifest>, now: real): World {
    World(Runtime(manifests, None, {}, Presentation(map[], None, {}, false, false), SharedFrameModel.Idle, {}, map[], now, []), map[])
  }

  predicate Execution(worlds: seq<World>, actions: seq<Action>) {
    && |worlds| == |actions| + 1 && worlds[0] == Start(worlds[0].r.manifests, worlds[0].r.now)
    && (forall k | k in worlds[0].r.manifests :: k == Lower(worlds[0].r.manifests[k].id))
    && forall i | 0 <= i < |actions| :: Leads(worlds[i], actions[i], worlds[i + 1])
  }

  lemma {:induction false} ExecutionKeeps(worlds: seq<World>, actions: seq<Action>, n: nat)
    requires Execution(worlds, actions) && n <= |actions|
    ensures Inv(worlds[n])
  {
    if n > 0 {
      hide Inv;
      ExecutionKeeps(worlds, actions, n - 1);
      assert Leads(worlds[n - 1], actions[n - 1], worlds[n]);
      NextKeeps(worlds[n - 1], actions[n - 1]);
    }
  }

  // Every launcher request that entered has been answered exactly once, unless the pending menu is its own
  // and still loading or rendering, when it has not been answered yet. Nothing else is ever answered.
  lemma LaunchAnsweredOnce(worlds: seq<World>, actions: seq<Action>, n: nat, id: nat)
    requires Execution(worlds, actions) && n <= |actions| && id != 0
    ensures Count(worlds[n].r.calls, id) == if id in worlds[n].launches && !Owes(worlds[n].r, id) then 1 else 0
  {
    ExecutionKeeps(worlds, actions, n);
  }

  // At the first tick at or past thirty seconds after it entered, the answer has been given.
  lemma LaunchAnsweredByDeadline(worlds: seq<World>, actions: seq<Action>, n: nat, id: nat)
    requires Execution(worlds, actions) && n < |actions| && id != 0 && actions[n].ATick?
    requires id in worlds[n].launches && worlds[n].r.now >= worlds[n].launches[id].entered + OPEN_SECONDS
    ensures Count(worlds[n + 1].r.calls, id) == 1
  {
    hide PresentationOk, PreparationOk, FailPending, OpenPreparedMenu, ViewReadiness;
    ExecutionKeeps(worlds, actions, n);
    ExecutionKeeps(worlds, actions, n + 1);
    assert Leads(worlds[n], actions[n], worlds[n + 1]);
    var w, a := worlds[n], actions[n];
    NothingPending(w.r);
    AfterOpening(w, a.env);
    if w.r.menu.Some? { NothingPending(CompleteLaunch(w.r.(menu := Some(w.r.menu.value.(phase := Prepared))), w.r.menu.value.requestId, true)); }
  }

  lemma NothingPending(r: Runtime)
    ensures FailPending(r, "").menu == None
  {}

  // Opening a prepared menu leaves none pending.
  lemma AfterOpening(w: World, env: Env)
    requires Inv(w)
    ensures w.r.menu.Some? ==> OpenPreparedMenu(w.r.(menu := Some(w.r.menu.value.(phase := Prepared))), w.r.menu.value.view, w.r.menu.value.requestId, env).menu == None
  {}

  // The frame state prepares a frame exactly while a pending menu is past loading.
  lemma PreparingExactlyWhilePending(worlds: seq<World>, actions: seq<Action>, n: nat)
    requires Execution(worlds, actions) && n <= |actions|
    ensures worlds[n].r.preparation == SharedFrameModel.Rendering <==> worlds[n].r.menu.Some? && worlds[n].r.menu.value.phase != Loading
  {
    ExecutionKeeps(worlds, actions, n);
  }

  // A delayed activation opens only the retained menu of its own launcher request, which was told "ready";
  // any other leaves the runtime as it was.
  lemma ActivationOpensItsOwnMenu(worlds: seq<World>, actions: seq<Action>, n: nat)
    requires Execution(worlds, actions) && n < |actions| && actions[n].AOpen? && actions[n].activation != 0
    ensures var r, s, a := worlds[n].r, worlds[n + 1].r, actions[n];
            if CanTakeReady(r, a.view, a.activation) then
              && a.activation in worlds[n].launches && SameFolded(worlds[n].launches[a.activation].view, a.view)
              && Completion(a.activation, true) in r.calls && s.menu == None
              && (a.env.available && a.env.suppressed && !r.p.suspended && a.view in r.p.instantiated ==> ActiveMenu(s.p) == Some(a.view))
            else s == r
  {
    ExecutionKeeps(worlds, actions, n);
    assert Leads(worlds[n], actions[n], worlds[n + 1]);
    var r, a := worlds[n].r, actions[n];
    if CanTakeReady(r, a.view, a.activation) && a.env.available && a.env.suppressed && !r.p.suspended && a.view in r.p.instantiated {
      OpenedMenu(worlds[n], a);
    }
  }

  lemma OpenedMenu(w: World, a: Action)
    requires Inv(w) && a.AOpen? && a.activation != 0 && CanTakeReady(w.r, a.view, a.activation)
    requires a.env.available && a.env.suppressed && !w.r.p.suspended && a.view in w.r.p.instantiated
    ensures ActiveMenu(OpenPreparedMenu(w.r, a.view, a.activation, a.env).p) == Some(a.view)
  {}

  // ---- layers ------------------------------------------------------------------------------------------------

  // A HUD is stacked by its manifest's order, kept below every menu.
  function HudOrder(order: int): (z: int)
    ensures 0 <= z < 1000 && (0 <= order < 1000 ==> z == order)
  {
    if order < 0 then 0 else if order > 999 then 999 else order
  }

  // Of all layers at most one menu is visible, the active one, above every HUD; a HUD is visible exactly when
  // shown, and nothing is while suspended. Something is visible exactly when the overlay is meant to be.
  lemma LayersFollowPresentation(worlds: seq<World>, actions: seq<Action>, n: nat, id: string)
    requires Execution(worlds, actions) && n <= |actions| && id in worlds[n].r.p.instantiated
    ensures var p := worlds[n].r.p; var l := LayerOf(p, id);
            && (p.instantiated[id].kind == Menu ==> (!l.hidden <==> ActiveMenu(p) == Some(id)) && l.z == 1000)
            && (p.instantiated[id].kind == Hud ==> (!l.hidden <==> id in p.hudShown && !p.suspended) && l.z == HudOrder(p.instantiated[id].order))
    ensures DesiredVisible(worlds[n].r.p) <==> exists v | v in worlds[n].r.p.instantiated :: !LayerOf(worlds[n].r.p, v).hidden
  {
    ExecutionKeeps(worlds, actions, n);
    var p := worlds[n].r.p;
    if DesiredVisible(p) {
      if p.activeMenu.Some? {
        assert !LayerOf(p, p.activeMenu.value).hidden;
      } else {
        var h :| h in p.hudShown;
        assert !LayerOf(p, h).hidden;
      }
    }
  }
}
