// The first frame of a menu: committed from the moment its menu opens until it is drawn; and a menu that is given up
// while its frame is prepared leaves the screen at once.
module ViewFrames {
  import opened Wrappers
  import opened Text
  import SharedFrameModel
  import opened ViewOpenModel
  import opened ViewOpenProofs
  import opened ViewScreenProofs
  import opened ViewLives

  // ---- the committed frame ------------------------------------------------------------------------------------

  // The frame of an opened menu waits to be drawn.
  predicate Committed(r: Runtime) {
    r.preparation == SharedFrameModel.Committed
  }

  predicate Same(r: Runtime, s: Runtime) {
    PreparationOk(s) && (Committed(s) <==> Committed(r))
  }

  lemma FailCommits(r: Runtime, view: string)
    requires PreparationOk(r)
    ensures Same(r, FailPending(r, view))
  {}

  lemma PolicyCommits(r: Runtime, env: Env)
    requires PreparationOk(r)
    ensures Same(r, ApplyPolicy(r, env))
  {
    hide FailPending, Published, DesiredCapture;
    FailCommits(r, "");
    var u := if DesiredCapture(r.p) && !env.available then CloseMenu(FailPending(r, "")) else r;
    FailCommits(u, "");
  }

  lemma OpenPreparedCommits(r: Runtime, view: string, requestId: nat, env: Env)
    requires CanTakeReady(r, view, requestId)
    ensures Committed(OpenPreparedMenu(r, view, requestId, env))
  {
    hide ApplyPolicy, OpenView;
    var u := EndPreparation(r.(menu := None), true);
    PolicyCommits(Invalidate(u.(p := OpenView(u.p, view).1)), env);
  }

  lemma NavigateCommits(r: Runtime, view: string)
    requires PreparationOk(r)
    ensures Same(r, Navigate(r, view))
  {
    hide FailPending;
    FailCommits(r, view);
  }

  // A view that is asked for anew.
  lemma AskedCommits(r: Runtime, id: string, requestId: nat, env: Env)
    requires PreparationOk(r)
    requires var f := FindManifest(r, id); f.Some? && requestId == 0 ==> r.menu.None? || r.menu.value.view != f.value.id
    ensures Same(r, PrepareViewOpen(r, id, requestId, env).1)
  {
    hide FailPending, Navigate, Supersede, OpenPreparedMenu;
    var found := FindManifest(r, id);
    FailCommits(r, "");
    if found.Some? {
      NavigateCommits(r, found.value.id);
      var u := InstantiateView(r, found.value, env).1;
      FailCommits(u, "");
      FailedNone(u);
    }
  }

  lemma FailedNone(r: Runtime)
    ensures FailPending(r, "").menu == None
  {}

  lemma LaunchCommits(r: Runtime, id: string, requestId: nat, env: Env)
    requires PreparationOk(r) && requestId != 0
    ensures Same(r, LauncherOpen(r, id, requestId, env))
  {
    hide PrepareViewOpen;
    AskedCommits(r, id, requestId, env);
  }

  lemma OpenCommits(w: World, a: Action)
    requires Good(w) && Enabled(w, a) && a.AOpen?
    ensures Committed(Next(w, a).r) <==> Opening(w.r.manifests, LivesOf(w.r), a).Some? || Committed(w.r)
  {
    CallOf(w, a);
    CreatedIsOwn(w, a.view);
    PreparationHolds(w);
    hide Good, Next, Enabled, Allowed, PrepareViewOpen, OpenPreparedMenu, Supersede;
    var f := FindManifest(w.r, a.view);
    if a.activation != 0 {
      if CanTakeReady(w.r, a.view, a.activation) {
        OpenPreparedCommits(w.r, a.view, a.activation, a.env);
      } else {
        NotTaken(w.r, a.view, a.activation, a.env);
      }
    } else if f.Some? && w.r.menu.Some? && w.r.menu.value.view == f.value.id {
      AgainIs(w.r, a, f.value);
      SupersedeKeepsFrame(w.r);
      if w.r.menu.value.phase == Prepared && Allowed(f.value, a.env) { OpenPreparedCommits(Supersede(w.r), f.value.id, 0, a.env); }
    } else {
      AskedCommits(w.r, a.view, 0, a.env);
    }
  }

  lemma SupersedeKeepsFrame(r: Runtime)
    requires r.menu.Some?
    ensures var s := Supersede(r);
            && s.preparation == r.preparation && s.menu.Some? && s.menu.value.phase == r.menu.value.phase
            && s.menu.value.view == r.menu.value.view && s.menu.value.requestId == 0
  {}

  lemma PreparationHolds(w: World)
    requires Good(w)
    ensures PreparationOk(w.r)
  {
    hide CallsOk, MenuOk, PresentationOk, ScreenOk;
  }

  lemma TickCommits(w: World, a: Action)
    requires Good(w) && Enabled(w, a) && a.ATick?
    ensures Committed(Next(w, a).r) <==> Opening(w.r.manifests, LivesOf(w.r), a).Some? || Committed(w.r)
  {
    CallOf(w, a);
    PreparationHolds(w);
    if w.r.menu.Some? { MenuUsable(w, a.env); }
    hide Good, Next, Enabled, Usable, UpdatePending, ViewReadiness;
    UpdateCommits(w.r, a.frameReady, a.accepted, a.env);
  }

  // The frame of a plain menu that is found prepared is committed; no other tick commits one.
  lemma UpdateCommits(r: Runtime, frameReady: bool, accepted: bool, env: Env)
    requires PreparationOk(r)
    ensures Committed(UpdatePending(r, frameReady, accepted, env)) <==>
              Committed(r) ||
              (r.menu.Some? && r.menu.value.phase == Rendering && r.menu.value.requestId == 0 && frameReady && env.compositor
               && ViewReadiness(r, r.menu.value.view, env) != Missing && ViewReadiness(r, r.menu.value.view, env) != InputUnavailable)
  {
    hide ViewReadiness, FailPending, OpenPreparedMenu;
    FailCommits(r, "");
    if r.menu.Some? && r.menu.value.phase == Rendering {
      var pending := r.menu.value;
      var u := r.(menu := Some(pending.(phase := Prepared)));
      if pending.requestId == 0 { OpenPreparedCommits(u, pending.view, 0, env); }
      FailCommits(CompleteLaunch(u, pending.requestId, true), "");
    }
  }

  lemma CommitCommits(w: World, a: Action)
    requires Good(w) && Enabled(w, a) && a.ACommit?
    ensures Committed(Next(w, a).r) <==> Committed(w.r) && !MenuPageReady(w.r.manifests, LivesOf(w.r), a.env)
  {
    MenuReadiness(w, a.env);
    DriveKeeps(w, a.env, a.order);
    PreparationHolds(w);
    DrivePrepares(w, a.env, a.order);
    hide Good, Inv, MenuReady, DrivePending, ApplyPolicy, ReadyOrder, MenuPageReady, LivesOf;
    DrivenHolds(w, a.env, a.order);
    PolicyCommits(DrivePending(w.r, a.env, a.order), a.env);
  }

  lemma DrivenHolds(w: World, env: Env, order: seq<string>)
    requires ReadyOrder(w.r, env, order) && Inv(w.(r := DrivePending(w.r, env, order)))
    ensures PreparationOk(DrivePending(w.r, env, order))
  {
    hide CallsOk, MenuOk, PresentationOk, DrivePending;
  }

  lemma DrivePrepares(w: World, env: Env, order: seq<string>)
    requires Inv(w) && ReadyOrder(w.r, env, order)
    ensures DrivePending(w.r, env, order).preparation == if MenuReady(w.r, env) then SharedFrameModel.Rendering else w.r.preparation
  {
    ReadyIsQueued(w, env, order);
    var huds, kept := HudsOf(w.r, env, order), w.r.(huds := KeptHuds(w.r, env));
    ReadyShown(w, env, order);
    hide Inv, ViewReadiness, OpenView, DriveAll, ReadyOrder, KeptHuds, PageReady;
    if MenuReady(w.r, env) {
      DriveCommutes(kept, huds, w.r.menu.value.(phase := Rendering));
      DriveLast(TakeReady(w.r, env), order);
    }
  }

  lemma OtherCommits(w: World, a: Action)
    requires Good(w) && Enabled(w, a) && !a.AOpen? && !a.ATick? && !a.ACommit? && !a.ADrawn?
    ensures Committed(Next(w, a).r) <==> Committed(w.r)
  {
    PreparationHolds(w);
    hide Good, FailPending, PrepareViewOpen, ApplyPolicy, Navigate, RemoveInstantiated, CloseView, ReadyOrder;
    var r := w.r;
    FailCommits(r, "");
    match a
    case ALaunch(view, id, env) => LaunchCommits(r, view, id, env);
    case AClose(view) => FailCommits(r, view);
    case AFail(view) => FailCommits(r, view);
    case ASuspend(suspend) => FailCommits(r.(p := SetSuspended(r.p, suspend).1), "");
    case ALoaded(view, _) => FailCommits(r, view);
    case ANavigate(view) => NavigateCommits(r, view);
    case ATearDown(view, env) => FailCommits(r, view); PolicyCommits(Removed(r, view), env);
    case AHostLost(env) =>
      var u := CloseMenu(FailPending(r, ""));
      PolicyCommits(u.(p := SetSuspended(u.p, true).1), env);
    case ARequeueHud(view) => NavigateCommits(if view in r.p.hudShown then r.(p := CloseView(r.p, view).1, huds := r.huds + {view}) else r, view);
    case _ =>
  }

  // In every run the frame state is committed from the step that opens a prepared menu until the frame is drawn, or
  // until the commit that starts preparing the next menu.
  lemma CommittedExactlyUntilDrawn(worlds: seq<World>, actions: seq<Action>, k: nat)
    requires Execution(worlds, actions) && k < |actions|
    ensures var r, a := worlds[k].r, actions[k];
            Committed(worlds[k + 1].r) <==>
              || Opening(r.manifests, LivesOf(r), a).Some?
              || (Committed(r) && !a.ADrawn? && !(a.ACommit? && MenuPageReady(r.manifests, LivesOf(r), a.env)))
  {
    hide Good, Next, Enabled, MenuPageReady;
    var w, a := worlds[k], actions[k];
    LivesMove(worlds, actions, k);
    assert Leads(w, a, worlds[k + 1]);
    match a
    case AOpen(_, _, _) => OpenCommits(w, a);
    case ATick(_, _, _) => TickCommits(w, a);
    case ACommit(_, _) => CommitCommits(w, a);
    case ADrawn => DrawnCommits(w, a);
    case _ => OtherCommits(w, a);
  }

  lemma DrawnCommits(w: World, a: Action)
    requires Enabled(w, a) && a.ADrawn?
    ensures !Committed(Next(w, a).r)
  {}

  // ---- given up ------------------------------------------------------------------------------------------------------

  lemma FailHides(r: Runtime, view: string)
    requires r.menu.Some? && Names(view, r.menu.value.view) && r.menu.value.phase != Loading
    ensures !OnScreen(FailPending(r, view), r.menu.value.view)
  {}

  // A menu that is given up while its first frame is prepared is hidden there and then, by a failure, a close, a
  // suspension, a tick, a failed load or a navigation alike.
  lemma GivenUpMenuLeavesTheScreen(worlds: seq<World>, actions: seq<Action>, k: nat)
    requires Execution(worlds, actions) && k < |actions| && Preparing(worlds[k].r)
    requires var a := actions[k]; a.AFail? || a.AClose? || a.ASuspend? || a.ATick? || a.ALoaded? || a.ANavigate?
    requires GivesUp(worlds[k].r.manifests, LivesOf(worlds[k].r), actions[k])
    ensures !OnScreen(worlds[k + 1].r, worlds[k].r.menu.value.view)
  {
    hide Good, Next, Enabled, LivesNext;
    LivesMove(worlds, actions, k);
    assert Leads(worlds[k], actions[k], worlds[k + 1]);
    if actions[k].ATick? { TickHides(worlds[k], actions[k]); } else { OtherHides(worlds[k], actions[k]); }
  }

  lemma OtherHides(w: World, a: Action)
    requires Enabled(w, a) && Preparing(w.r) && (a.AFail? || a.AClose? || a.ASuspend? || a.ALoaded? || a.ANavigate?)
    requires GivesUp(w.r.manifests, LivesOf(w.r), a)
    ensures !OnScreen(Next(w, a).r, w.r.menu.value.view)
  {
    hide FailPending, CloseView;
    match a
    case AFail(view) => FailHides(w.r, view);
    case AClose(view) => FailHides(w.r, view);
    case ASuspend(suspend) => FailHides(w.r.(p := SetSuspended(w.r.p, suspend).1), "");
    case ALoaded(view, _) => FailHides(w.r, view);
    case ANavigate(view) => FailHides(w.r, view);
  }

  lemma TickHides(w: World, a: Action)
    requires Good(w) && Enabled(w, a) && Preparing(w.r) && a.ATick? && GivesUp(w.r.manifests, LivesOf(w.r), a)
    ensures !OnScreen(Next(w, a).r, w.r.menu.value.view)
  {
    CallOf(w, a);
    MenuUsable(w, a.env);
    hide Good, Next, Enabled, Usable, ViewReadiness, FailPending, OpenPreparedMenu;
    FailHides(w.r, "");
    var pending := w.r.menu.value;
    FailHides(CompleteLaunch(w.r.(menu := Some(pending.(phase := Prepared))), pending.requestId, true), "");
  }
}
