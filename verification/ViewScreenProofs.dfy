// What the renderer shows, over every run: it is what the presentation asks for whenever nothing is left to
// publish, so no step that changes what should be visible forgets to say so.
module ViewScreenProofs {
  import opened Wrappers
  import opened Text
  import SharedFrameModel
  import opened ViewOpenModel
  import opened ViewOpenProofs
  import opened ViewScreen

  // The renderer knows every instantiated view, and while the flag is clear it has them as the policy wants;
  // a menu past loading is instantiated, and none is while suspended. Views it knows besides are hidden.
  ghost predicate ScreenOk(r: Runtime) {
    && r.p.instantiated.Keys <= r.screen.Keys
    && (!r.p.changed ==> forall id | id in r.p.instantiated :: r.screen[id] == Wanted(r, id))
    && (Preparing(r) ==> !r.p.suspended && r.menu.value.view in r.p.instantiated)
    && (forall id | id in r.screen && id !in r.p.instantiated :: r.screen[id].hidden)
  }

  // A change that raises the flag is published later.
  lemma Raised(r: Runtime, p: Presentation)
    requires ScreenOk(r) && p.changed && r.p.instantiated.Keys <= p.instantiated.Keys <= r.screen.Keys
    requires Preparing(r) ==> !p.suspended && r.menu.value.view in p.instantiated
    ensures ScreenOk(r.(p := p))
  {}

  lemma FailScreen(r: Runtime, view: string)
    requires ScreenOk(r)
    ensures ScreenOk(FailPending(r, view))
  {
    hide Wanted;
  }

  lemma OpenScreen(r: Runtime, id: string)
    requires ScreenOk(r)
    ensures ScreenOk(r.(p := OpenView(r.p, id).1))
  {
    hide Wanted;
    if OpenView(r.p, id).1 != r.p { Raised(r, OpenView(r.p, id).1); }
  }

  lemma CloseScreen(r: Runtime, id: string)
    requires ScreenOk(r)
    ensures ScreenOk(r.(p := CloseView(r.p, id).1)) && ScreenOk(CloseMenu(r))
  {
    hide Wanted;
    if CloseView(r.p, id).1 != r.p { Raised(r, CloseView(r.p, id).1); }
    if CloseActiveMenu(r.p).1 != r.p { Raised(r, CloseActiveMenu(r.p).1); }
  }

  // What is wanted depends on the manifests, the pending menu and the presentation.
  lemma SameWanted(r: Runtime, u: Runtime, id: string)
    requires id in r.p.instantiated && u.manifests == r.manifests && u.p == r.p.(changed := u.p.changed)
    requires Preparing(u) == Preparing(r) && (Preparing(r) ==> u.menu.value.view == r.menu.value.view)
    ensures Wanted(u, id) == Wanted(r, id)
  {}

  // Steps that touch neither the screen nor what is wanted of it.
  lemma Untouched(r: Runtime, u: Runtime)
    requires ScreenOk(r) && u.manifests == r.manifests && u.p == r.p && u.screen == r.screen
    requires Preparing(u) == Preparing(r) && (Preparing(r) ==> u.menu.value.view == r.menu.value.view)
    ensures ScreenOk(u)
  {
    hide Wanted;
    forall id | id in r.p.instantiated { SameWanted(r, u, id); }
  }

  lemma PublishScreen(r: Runtime)
    requires ScreenOk(r)
    ensures ScreenOk(Publish(r)) && !Publish(r).p.changed
  {
    hide Wanted;
    var u := Publish(r);
    forall id | id in r.p.instantiated { SameWanted(r, u, id); }
  }

  lemma PermitScreen(r: Runtime, env: Env)
    requires ScreenOk(r)
    ensures ScreenOk(Permit(r, env))
  {
    hide ScreenOk, FailPending, CloseMenu;
    FailScreen(r, "");
    CloseScreen(FailPending(r, ""), "");
    var u := if DesiredCapture(r.p) && !env.available then CloseMenu(FailPending(r, "")) else r;
    FailScreen(u, "");
    CloseScreen(FailPending(u, ""), "");
  }

  lemma PolicyScreen(r: Runtime, env: Env)
    requires ScreenOk(r)
    ensures ScreenOk(ApplyPolicy(r, env)) && (env.renderer ==> !ApplyPolicy(r, env).p.changed)
  {
    hide ScreenOk, Permit, Publish;
    PermitScreen(r, env);
    PublishScreen(Permit(r, env));
  }

  lemma OpenPreparedScreen(r: Runtime, view: string, requestId: nat, env: Env)
    requires ScreenOk(r)
    ensures ScreenOk(OpenPreparedMenu(r, view, requestId, env))
  {
    hide ScreenOk, ApplyPolicy, OpenView;
    if CanTakeReady(r, view, requestId) {
      var u := EndPreparation(r.(menu := None), true);
      OpenKeepsViews(u.p, view);
      Dropped(r, u, OpenView(u.p, view).1);
      PolicyScreen(Invalidate(u.(p := OpenView(u.p, view).1)), env);
    }
  }

  lemma OpenKeepsViews(p: Presentation, id: string)
    ensures OpenView(p, id).1.instantiated == p.instantiated
  {}

  // The pending menu is taken and opened, with the flag raised.
  lemma Dropped(r: Runtime, u: Runtime, p: Presentation)
    requires ScreenOk(r) && u.menu == None && u.screen == r.screen && p.instantiated == r.p.instantiated
    ensures ScreenOk(Invalidate(u.(p := p)))
  {}

  lemma NavigateScreen(r: Runtime, view: string)
    requires ScreenOk(r)
    ensures ScreenOk(Navigate(r, view)) && view in Navigate(r, view).screen
  {
    hide Wanted, FailPending;
    FailScreen(r, view);
    var u := FailPending(r, view);
    forall id | id in u.p.instantiated { SameWanted(u, Navigate(r, view), id); }
  }

  lemma InstantiateScreen(r: Runtime, m: Manifest, env: Env)
    requires ScreenOk(r)
    ensures ScreenOk(InstantiateView(r, m, env).1)
  {
    hide Navigate, Wanted;
    if m.id !in r.p.instantiated && env.renderer {
      NavigateScreen(r, m.id);
      Raised(Navigate(r, m.id), AddInstantiated(Navigate(r, m.id).p, m));
    }
  }

  lemma PrepareScreen(r: Runtime, id: string, requestId: nat, env: Env)
    requires ScreenOk(r)
    ensures ScreenOk(PrepareViewOpen(r, id, requestId, env).1)
  {
    hide ScreenOk, OpenPreparedMenu, InstantiateView, FailPending, Supersede;
    var found := FindManifest(r, id);
    if found.Some? {
      var m := found.value;
      FailScreen(r, "");
      if r.menu.Some? {
        SupersedeScreen(r);
        OpenPreparedScreen(Supersede(r), m.id, 0, env);
      }
      InstantiateScreen(r, m, env);
      var u := InstantiateView(r, m, env).1;
      Untouched(u, u.(huds := u.huds + {m.id}));
      FailScreen(u, "");
      var v := FailPending(u, "");
      QueueScreen(u, Some(MenuOpen(m.id, r.now + OPEN_SECONDS, requestId, Loading)));
    }
  }

  lemma SupersedeScreen(r: Runtime)
    requires ScreenOk(r) && r.menu.Some?
    ensures ScreenOk(Supersede(r))
  {
    hide ScreenOk;
    Untouched(r, Supersede(r));
  }

  lemma QueueScreen(r: Runtime, menu: Option<MenuOpen>)
    requires ScreenOk(r) && menu.Some? && menu.value.phase == Loading
    ensures ScreenOk(FailPending(r, "").(menu := menu))
  {
    hide ScreenOk;
    FailScreen(r, "");
    Untouched(FailPending(r, ""), FailPending(r, "").(menu := menu));
  }

  lemma LauncherScreen(r: Runtime, id: string, requestId: nat, env: Env)
    requires ScreenOk(r)
    ensures ScreenOk(LauncherOpen(r, id, requestId, env))
  {
    hide ScreenOk, PrepareViewOpen;
    PrepareScreen(r, id, requestId, env);
    var u := PrepareViewOpen(r, id, requestId, env).1;
    Untouched(u, CompleteLaunch(u, requestId, false));
  }

  lemma TickScreen(r: Runtime, frameReady: bool, accepted: bool, env: Env)
    requires ScreenOk(r)
    ensures ScreenOk(UpdatePending(r, frameReady, accepted, env))
  {
    hide ScreenOk, OpenPreparedMenu, FailPending, ViewReadiness;
    FailScreen(r, "");
    if r.menu.Some? && r.menu.value.phase == Rendering {
      var pending := r.menu.value;
      var u := r.(menu := Some(pending.(phase := Prepared)));
      Untouched(r, u);
      OpenPreparedScreen(u, pending.view, 0, env);
      var v := CompleteLaunch(u, pending.requestId, true);
      Untouched(r, v);
      Untouched(r, v.(menu := Some(pending.(phase := Prepared, deadline := r.now + OPEN_SECONDS))));
      FailScreen(v, "");
    }
  }

  // ---- driving what is ready ---------------------------------------------------------------------------

  lemma {:induction false} DriveHudsScreen(w: World, ids: seq<string>)
    requires ScreenOk(w.r) && (w.r.menu.Some? ==> w.r.menu.value.view !in ids)
    ensures ScreenOk(DriveAll(w.r, ids)) && DriveAll(w.r, ids).menu == w.r.menu
    decreases |ids|
  {
    hide ScreenOk, OpenView;
    if ids != [] {
      var front := ids[..|ids| - 1];
      assert w.r.menu.Some? ==> w.r.menu.value.view !in front && ids[|ids| - 1] in ids;
      DriveHudsScreen(w, front);
      OpenScreen(DriveAll(w.r, front), ids[|ids| - 1]);
    }
  }

  lemma DriveScreen(w: World, env: Env, order: seq<string>)
    requires Inv(w) && ScreenOk(w.r) && ReadyOrder(w.r, env, order)
    ensures ScreenOk(DrivePending(w.r, env, order))
  {
    hide ScreenOk, Inv, OpenView, ViewReadiness, DriveAll;
    ReadyIsQueued(w, env, order);
    assert w.r.menu.Some? ==> w.r.menu.value.view !in HudsOf(w.r, env, order);
    var kept := w.r.(huds := KeptHuds(w.r, env));
    Untouched(w.r, kept);
    if MenuReady(w.r, env) {
      var huds := order[..|order| - 1];
      DriveHudsScreen(World(kept, w.launches), huds);
      DriveCommutes(kept, huds, w.r.menu.value.(phase := Rendering));
      DriveAllFields(kept, huds);
      StartsPreparing(w, env, DriveAll(kept, huds));
      DriveLast(TakeReady(w.r, env), order);
    } else {
      DriveHudsScreen(World(kept, w.launches), order);
    }
  }

  lemma DriveLast(r: Runtime, ids: seq<string>)
    requires ids != []
    ensures DriveAll(r, ids) == DriveOne(DriveAll(r, ids[..|ids| - 1]), ids[|ids| - 1])
  {}

  lemma {:induction false} DriveAllFields(r: Runtime, ids: seq<string>)
    ensures r.menu.None? || r.menu.value.view !in ids ==>
              var s := DriveAll(r, ids); s == r.(p := s.p) && s.p.instantiated == r.p.instantiated && s.p.suspended == r.p.suspended
    decreases |ids|
  {
    if ids != [] && (r.menu.None? || r.menu.value.view !in ids) {
      var front := ids[..|ids| - 1];
      assert ids[|ids| - 1] in ids;
      DriveAllFields(r, front);
    }
  }

  // The page is ready, so the view is instantiated and nothing is suspended.
  lemma StartsPreparing(w: World, env: Env, u: Runtime)
    requires Inv(w) && MenuReady(w.r, env) && ScreenOk(u) && u.menu == w.r.menu
    requires u.p.instantiated == w.r.p.instantiated && u.p.suspended == w.r.p.suspended
    ensures var m := w.r.menu.value; ScreenOk(DriveOne(u.(menu := Some(m.(phase := Rendering))), m.view))
  {
    hide Wanted, CallsOk, PresentationOk, PreparationOk;
  }

  // ---- the rest ------------------------------------------------------------------------------------------

  lemma RemovedScreen(r: Runtime, view: string, env: Env)
    requires ScreenOk(r)
    ensures ScreenOk(TearDown(r, view, env))
  {
    hide ApplyPolicy, Wanted;
    FailScreen(r, view);
    WithoutScreen(FailPending(r, view), view);
    assert FailPending(r, view).menu.None? || FailPending(r, view).menu.value.view != view;
    PolicyScreen(Removed(r, view), env);
  }

  lemma WithoutScreen(r: Runtime, view: string)
    requires ScreenOk(r) && (r.menu.None? || r.menu.value.view != view)
    ensures ScreenOk(r.(huds := r.huds - {view}, screen := r.screen - {view}, p := RemoveInstantiated(r.p, view).1))
  {
    hide Wanted;
    var u := r.(huds := r.huds - {view}, screen := r.screen - {view}, p := RemoveInstantiated(r.p, view).1);
    if !u.p.changed {
      forall id | id in u.p.instantiated { SameWanted(r, u, id); }
    }
  }

  lemma CloseRequestScreen(r: Runtime, view: string)
    requires ScreenOk(r)
    ensures ScreenOk(CloseRequest(r, view))
  {
    hide ScreenOk, FailPending, CloseView;
    FailScreen(r, view);
    var u := FailPending(r, view);
    CloseScreen(u, view);
    Untouched(u.(p := CloseView(u.p, view).1), u.(huds := u.huds - {view}, p := CloseView(u.p, view).1));
  }

  lemma SuspendScreen(r: Runtime, suspend: bool)
    requires ScreenOk(r)
    ensures ScreenOk(Suspend(r, suspend))
  {
    hide Wanted;
  }

  lemma HostLostScreen(r: Runtime, env: Env)
    requires ScreenOk(r)
    ensures ScreenOk(HostLost(r, env))
  {
    hide ApplyPolicy, FailPending, Wanted;
    FailScreen(r, "");
    CloseScreen(FailPending(r, ""), "");
    var u := CloseMenu(FailPending(r, ""));
    NothingPending(r);
    if !u.p.suspended { Raised(u, SetSuspended(u.p, true).1); }
    PolicyScreen(u.(p := SetSuspended(u.p, true).1), env);
  }

  lemma InvalidateScreen(r: Runtime)
    requires ScreenOk(r)
    ensures ScreenOk(Invalidate(r))
  {}

  lemma RequeueScreen(r: Runtime, view: string)
    requires ScreenOk(r)
    ensures ScreenOk(RequeueHud(r, view))
  {
    hide ScreenOk, CloseView, Navigate;
    CloseScreen(r, view);
    var u := r.(p := CloseView(r.p, view).1);
    Untouched(u, u.(huds := r.huds + {view}));
    NavigateScreen(if view in r.p.hudShown then u.(huds := r.huds + {view}) else r, view);
  }

  lemma NextScreen(w: World, a: Action)
    requires Inv(w) && ScreenOk(w.r) && Enabled(w, a)
    ensures ScreenOk(Next(w, a).r)
  {
    hide ScreenOk, Inv;
    var r := w.r;
    match a
    case ALaunch(view, id, env) => LauncherScreen(r, view, id, env);
    case AOpen(view, id, env) => OpenPreparedScreen(r, view, id, env); PrepareScreen(r, view, 0, env);
    case AClose(view) => CloseRequestScreen(r, view);
    case AFail(view) => FailScreen(r, view);
    case ATick(frameReady, accepted, env) => TickScreen(r, frameReady, accepted, env);
    case ACommit(env, order) => DriveScreen(w, env, order); PolicyScreen(DrivePending(r, env, order), env);
    case ASuspend(suspend) => SuspendScreen(r, suspend);
    case ALoaded(view, failed) => FailScreen(r, view); Untouched(r, r.(loaded := r.loaded + {view}));
    case ANavigate(view) => NavigateScreen(r, view);
    case ATearDown(view, env) => RemovedScreen(r, view, env);
    case AHostLost(env) => HostLostScreen(r, env);
    case ARequeueHud(view) => RequeueScreen(r, view);
    case AInvalidate => InvalidateScreen(r);
    case ACloseActive => CloseScreen(r, "");
    case ATime(to) => Untouched(r, r.(now := to));
    case ADrawn => Untouched(r, r.(preparation := SharedFrameModel.Idle));
  }

  lemma {:induction false} ExecutionKeepsScreen(worlds: seq<World>, actions: seq<Action>, n: nat)
    requires Execution(worlds, actions) && n <= |actions|
    ensures Inv(worlds[n]) && ScreenOk(worlds[n].r)
    decreases n
  {
    hide Inv, Next, Enabled;
    ExecutionKeeps(worlds, actions, n);
    if n == 0 {
      assert worlds[0].r.p.instantiated == map[];
    } else {
      hide ScreenOk;
      ExecutionKeepsScreen(worlds, actions, n - 1);
      assert Leads(worlds[n - 1], actions[n - 1], worlds[n]);
      NextScreen(worlds[n - 1], actions[n - 1]);
    }
  }

  // ---- what is on screen ------------------------------------------------------------------------------------

  // The menu that should be rendered: the one whose first frame is being prepared, else the active one.
  function MenuOnScreen(r: Runtime): Option<string> {
    if Preparing(r) then Some(r.menu.value.view) else ActiveMenu(r.p)
  }

  predicate OnScreen(r: Runtime, id: string) {
    id in r.screen && !r.screen[id].hidden
  }

  // With nothing left to publish the renderer shows exactly the shown HUDs, unless suspended, and one menu:
  // the one being prepared, or else the active one. A menu is above every HUD.
  lemma ScreenFollowsPresentation(worlds: seq<World>, actions: seq<Action>, n: nat, id: string)
    requires Execution(worlds, actions) && n <= |actions|
    requires !worlds[n].r.p.changed && id in worlds[n].r.p.instantiated
    ensures var r := worlds[n].r;
            && id in r.screen
            && (r.p.instantiated[id].kind == Menu ==> (OnScreen(r, id) <==> MenuOnScreen(r) == Some(id)) && r.screen[id].order == 1000)
            && (r.p.instantiated[id].kind == Hud ==> (OnScreen(r, id) <==> id in r.p.hudShown && !r.p.suspended) && r.screen[id].order == HudOrder(r.p.instantiated[id].order))
  {
    ExecutionKeepsScreen(worlds, actions, n);
    var r := worlds[n].r;
    assert r.screen[id] == Wanted(r, id);
    assert Known(r.manifests, id, r.p.instantiated[id].kind);
  }

  // Suspended with nothing left to publish, no instantiated view is visible.
  lemma NothingOnScreenWhileSuspended(worlds: seq<World>, actions: seq<Action>, n: nat, id: string)
    requires Execution(worlds, actions) && n <= |actions|
    requires !worlds[n].r.p.changed && worlds[n].r.p.suspended && id in worlds[n].r.p.instantiated
    ensures !OnScreen(worlds[n].r, id)
  {
    ExecutionKeepsScreen(worlds, actions, n);
    ScreenFollowsPresentation(worlds, actions, n, id);
  }

  // Every commit with a renderer publishes everything.
  lemma CommitPublishes(worlds: seq<World>, actions: seq<Action>, n: nat)
    requires Execution(worlds, actions) && n < |actions| && actions[n].ACommit? && actions[n].env.renderer
    ensures !worlds[n + 1].r.p.changed
  {
    hide Inv, ScreenOk, DrivePending, ApplyPolicy;
    ExecutionKeepsScreen(worlds, actions, n);
    var w, a := worlds[n], actions[n];
    assert Leads(w, a, worlds[n + 1]);
    DriveScreen(w, a.env, a.order);
    PolicyScreen(DrivePending(w.r, a.env, a.order), a.env);
  }
}
