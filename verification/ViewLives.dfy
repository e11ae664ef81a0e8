// Which views are open, waiting to open, or pending, by rules read off the actions alone, without the runtime's
// own steps; the runtime follows them in every run.
module ViewLives {
  import opened Wrappers
  import opened Text
  import SharedFrameModel
  import opened ViewOpenModel
  import opened ViewOpenProofs
  import opened ViewScreenProofs

  // `waiting` are the HUDs asked for and not yet shown.
  datatype Lives = Lives(
    instantiated: map<string, Manifest>, loaded: set<string>, suspended: bool, now: real,
    pending: Option<MenuOpen>, waiting: set<string>, shown: set<string>, active: Option<string>)

  function LivesOf(r: Runtime): Lives {
    Lives(r.p.instantiated, r.loaded, r.p.suspended, r.now, r.menu, r.huds, r.p.hudShown, r.p.activeMenu)
  }

  // ---- the rules ---------------------------------------------------------------------------------------------

  predicate Open(o: Lives, id: string) {
    id in o.shown || o.active == Some(id)
  }

  predicate Waits(o: Lives, id: string) {
    id in o.waiting || (o.pending.Some? && o.pending.value.view == id)
  }

  function Found(manifests: map<string, Manifest>, id: string): Option<Manifest> {
    if Lower(id) in manifests then Some(manifests[Lower(id)]) else None
  }

  // The engine's own menus and the input integration bar menus; nothing opens without compositor and host.
  predicate Allowed(m: Manifest, env: Env) {
    env.compositor && env.hostAvailable && !(m.kind == Menu && (env.transitionOpen || (m.capturesInput && env.attempted && !env.available)))
  }

  // The view a step asks to open anew, and for which launcher.
  function Asks(manifests: map<string, Manifest>, o: Lives, a: Action): Option<(Manifest, nat)> {
    match a
    case ALaunch(view, id, env) =>
      var m := Found(manifests, view);
      if m.Some? && m.value.kind == Menu && !o.suspended && Allowed(m.value, env) && (m.value.id in o.instantiated || env.renderer)
      then Some((m.value, id)) else None
    case AOpen(view, activation, env) =>
      var m := Found(manifests, view);
      if activation == 0 && m.Some? && Allowed(m.value, env) && !Waits(o, m.value.id) && !Open(o, m.value.id)
         && (m.value.id in o.instantiated || env.renderer)
      then Some((m.value, 0)) else None
    case _ => None
  }

  // A plain open of the menu that is pending already.
  predicate AsksAgain(manifests: map<string, Manifest>, o: Lives, a: Action) {
    && a.AOpen? && a.activation == 0 && Found(manifests, a.view).Some? && Allowed(Found(manifests, a.view).value, a.env)
    && o.pending.Some? && o.pending.value.view == Found(manifests, a.view).value.id
  }

  // The pending menu can be opened at all: its page exists, and the input it needs has not failed, which is not asked
  // of a menu that waits for the end of a suspension.
  predicate Usable(manifests: map<string, Manifest>, o: Lives, view: string, env: Env) {
    var m := Found(manifests, view);
    m.Some? && view in o.instantiated && !(!o.suspended && m.value.capturesInput && env.attempted && !env.available)
  }

  predicate FramePrepared(manifests: map<string, Manifest>, o: Lives, a: Action) {
    a.ATick? && o.pending.Some? && o.pending.value.phase == Rendering && a.frameReady && a.env.compositor && Usable(manifests, o, o.pending.value.view, a.env)
  }

  // The menu a step opens: a prepared one, by its launcher's activation or a plain open; a plain one as its frame is
  // prepared.
  function Opening(manifests: map<string, Manifest>, o: Lives, a: Action): Option<string> {
    if o.pending.None? then None else
    var m := o.pending.value;
    var opens := match a
      case AOpen(view, activation, _) =>
        m.phase == Prepared && (AsksAgain(manifests, o, a) || (activation != 0 && m.view == view && m.requestId == activation))
      case ATick(_, _, _) => m.requestId == 0 && FramePrepared(manifests, o, a)
      case _ => false;
    if opens then Some(m.view) else None
  }

  predicate Names(id: string, view: string) {
    id == "" || id == view
  }

  // The pending menu is given up.
  predicate GivesUp(manifests: map<string, Manifest>, o: Lives, a: Action)
    requires o.pending.Some?
  {
    var m := o.pending.value;
    match a
    case AFail(id) => Names(id, m.view)
    case ALoaded(id, failed) => failed && Names(id, m.view)
    case ANavigate(id) => Names(id, m.view)
    case ARequeueHud(id) => Names(id, m.view)
    case AClose(id) => Names(id, m.view)
    case ATearDown(id, _) => Names(id, m.view)
    case ASuspend(suspend) => suspend && !o.suspended
    case AHostLost(_) => true
    case ATick(_, accepted, env) =>
      || !Usable(manifests, o, m.view, env)
      || (if FramePrepared(manifests, o, a) then m.requestId != 0 && !accepted else o.now >= m.deadline)
    case AOpen(view, activation, env) =>
      // an open menu is asked for again, or a HUD with no name is created
      && activation == 0 && Found(manifests, view).Some?
      && var f := Found(manifests, view).value;
         Allowed(f, env) && f.id != m.view && f.id !in o.waiting
         && (if Open(o, f.id) then f.kind == Menu else f.kind == Hud && f.id == "" && f.id !in o.instantiated && env.renderer)
    case _ => false
  }

  // What becomes of a pending menu that is neither given up, opened nor replaced.
  function Retained(manifests: map<string, Manifest>, o: Lives, a: Action): MenuOpen
    requires o.pending.Some?
  {
    var m := o.pending.value;
    match a
    case ACommit(env, _) =>
      var f := Found(manifests, m.view);
      if m.phase == Loading && !o.suspended && f.Some? && (f.value.capturesInput ==> env.attempted && env.available)
         && m.view in o.instantiated && m.view in o.loaded
      then m.(phase := Rendering) else m
    case ATick(_, _, _) => if FramePrepared(manifests, o, a) then m.(phase := Prepared, deadline := o.now + 30.0) else m
    case AOpen(_, _, _) => if AsksAgain(manifests, o, a) && m.requestId != 0 then m.(requestId := 0, deadline := o.now + 30.0) else m
    case _ => m
  }

  function PendingNext(manifests: map<string, Manifest>, o: Lives, a: Action): Option<MenuOpen> {
    var asked := Asks(manifests, o, a);
    if asked.Some? && asked.value.0.kind == Menu then Some(MenuOpen(asked.value.0.id, o.now + 30.0, asked.value.1, Loading))
    else if o.pending.None? || Opening(manifests, o, a).Some? || GivesUp(manifests, o, a) then None
    else Some(Retained(manifests, o, a))
  }

  // The active menu before the policy judges it.
  function ActiveNext(manifests: map<string, Manifest>, o: Lives, a: Action): Option<string> {
    if Opening(manifests, o, a).Some? then Opening(manifests, o, a)
    else if o.active.None? then None
    else
      var closes := match a
        case AClose(id) => o.active == Some(id)
        case ATearDown(id, _) => o.active == Some(id)
        case ACloseActive => true
        case ASuspend(suspend) => suspend
        case AHostLost(_) => true
        case _ => false;
      if closes then None else o.active
  }

  // Closed, torn down or sent back to wait.
  predicate Withdraws(a: Action, id: string) {
    (a.AClose? && a.view == id) || (a.ATearDown? && a.view == id) || (a.ARequeueHud? && a.view == id)
  }

  // Its page is there: a waiting HUD is shown by the next commit.
  predicate PageReady(o: Lives, id: string) {
    id in o.instantiated && id in o.loaded
  }

  function ShownNext(o: Lives, a: Action): set<string> {
    if a.ACommit? then o.shown + (set h | h in o.waiting && PageReady(o, h)) else set h | h in o.shown && !Withdraws(a, h)
  }

  function WaitingNext(manifests: map<string, Manifest>, o: Lives, a: Action): set<string> {
    var asked := Asks(manifests, o, a);
    if asked.Some? && asked.value.0.kind == Hud then o.waiting + {asked.value.0.id}
    else if a.ACommit? then set h | h in o.waiting && h in o.instantiated && h !in o.loaded
    else if a.ARequeueHud? then (if a.view in o.shown then o.waiting + {a.view} else o.waiting)
    else set h | h in o.waiting && !Withdraws(a, h)
  }

  function LoadedNext(manifests: map<string, Manifest>, o: Lives, a: Action): set<string> {
    var asked := Asks(manifests, o, a);
    if asked.Some? then (if asked.value.0.id in o.instantiated then o.loaded else o.loaded - {asked.value.0.id})
    else match a
      case ALoaded(id, failed) => if failed then o.loaded else o.loaded + {id}
      case ANavigate(id) => o.loaded - {id}
      case ARequeueHud(id) => o.loaded - {id}
      case _ => o.loaded
  }

  function InstantiatedNext(manifests: map<string, Manifest>, o: Lives, a: Action): map<string, Manifest> {
    var asked := Asks(manifests, o, a);
    if asked.Some? then o.instantiated[asked.value.0.id := asked.value.0]
    else if a.ATearDown? then o.instantiated - {a.view}
    else o.instantiated
  }

  // The steps after which the policy judges the menus.
  function Judge(manifests: map<string, Manifest>, o: Lives, a: Action): Option<Env> {
    match a
    case ACommit(env, _) => Some(env)
    case AHostLost(env) => Some(env)
    case ATearDown(id, env) => if Open(o, id) then Some(env) else None
    case AOpen(_, _, env) => if Opening(manifests, o, a).Some? then Some(env) else None
    case ATick(_, _, env) => if Opening(manifests, o, a).Some? then Some(env) else None
    case _ => None
  }

  // A menu stays only while the game lets it, and with the input it captures.
  predicate Forbids(o: Lives, env: Env) {
    env.renderer &&
    (!env.suppressed || (!env.available && !o.suspended && o.active.Some? && o.active.value in o.instantiated && o.instantiated[o.active.value].capturesInput))
  }

  function Moved(manifests: map<string, Manifest>, o: Lives, a: Action): Lives {
    Lives(InstantiatedNext(manifests, o, a), LoadedNext(manifests, o, a),
          if a.ASuspend? then a.suspend else a.AHostLost? || o.suspended, if a.ATime? then a.to else o.now,
          PendingNext(manifests, o, a), WaitingNext(manifests, o, a), ShownNext(o, a), ActiveNext(manifests, o, a))
  }

  function LivesNext(manifests: map<string, Manifest>, o: Lives, a: Action): Lives {
    var moved, env := Moved(manifests, o, a), Judge(manifests, o, a);
    if env.Some? && Forbids(moved, env.value) then moved.(pending := None, active := None) else moved
  }

  // What the first n actions make of it.
  function Asked(manifests: map<string, Manifest>, now: real, actions: seq<Action>, n: nat): Lives
    requires n <= |actions|
  {
    if n == 0 then Lives(map[], {}, false, now, None, {}, {}, None)
    else LivesNext(manifests, Asked(manifests, now, actions, n - 1), actions[n - 1])
  }

  // ---- the runtime's pieces ------------------------------------------------------------------------------------

  lemma FailIs(r: Runtime, view: string)
    ensures var s := FailPending(r, view);
            && LivesOf(s) == LivesOf(r).(pending := if r.menu.Some? && Names(view, r.menu.value.view) then None else r.menu)
            && s.manifests == r.manifests
  {}

  lemma PolicyIs(r: Runtime, env: Env)
    ensures var s, o := ApplyPolicy(r, env), LivesOf(r);
            && LivesOf(s) == (if Forbids(o, env) then o.(pending := None, active := None) else o)
            && s.manifests == r.manifests
  {
    hide Published, FailPending;
    FailIs(r, "");
    FailIs(CloseMenu(FailPending(r, "")), "");
  }

  lemma OpenPreparedIs(r: Runtime, view: string, requestId: nat, env: Env)
    requires CanTakeReady(r, view, requestId)
    requires view in r.p.instantiated && r.p.instantiated[view].kind == Menu && !r.p.suspended
    ensures var s, o := OpenPreparedMenu(r, view, requestId, env), LivesOf(r).(pending := None, active := Some(view));
            s.manifests == r.manifests && LivesOf(s) == if Forbids(o, env) then o.(active := None) else o
  {
    hide ApplyPolicy;
    var u := EndPreparation(r.(menu := None), true);
    PolicyIs(Invalidate(u.(p := OpenView(u.p, view).1)), env);
  }

  // ---- each action follows the rules ------------------------------------------------------------------------------

  ghost predicate Follows(w: World, a: Action)
    requires Enabled(w, a)
  {
    var s := Next(w, a).r;
    s.manifests == w.r.manifests && LivesOf(s) == LivesNext(w.r.manifests, LivesOf(w.r), a)
  }

  lemma Followed(w: World, a: Action, s: Runtime)
    requires Enabled(w, a) && Next(w, a).r == s
    requires s.manifests == w.r.manifests && LivesOf(s) == LivesNext(w.r.manifests, LivesOf(w.r), a)
    ensures Follows(w, a)
  {}

  // The runtime call behind an action.
  lemma CallOf(w: World, a: Action)
    requires Enabled(w, a)
    ensures a.AOpen? ==> Next(w, a).r == OpenRequest(w.r, a.view, a.activation, a.env)
    ensures a.ATick? ==> Next(w, a).r == UpdatePending(w.r, a.frameReady, a.accepted, a.env)
    ensures a.ASuspend? ==> Next(w, a).r == Suspend(w.r, a.suspend)
    ensures a.AHostLost? ==> Next(w, a).r == HostLost(w.r, a.env)
  {
    hide OpenRequest, UpdatePending, Suspend, HostLost, ReadyOrder;
  }

  ghost predicate Good(w: World) {
    Inv(w) && ScreenOk(w.r)
  }

  lemma PlainFollow(w: World, a: Action)
    requires Good(w) && Enabled(w, a)
    requires a.AFail? || a.ALoaded? || a.ANavigate? || a.AInvalidate? || a.ACloseActive? || a.ATime? || a.ADrawn?
    ensures Follows(w, a)
  {
    QuietRules(w.r.manifests, LivesOf(w.r), a);
    hide Good, FailPending, LivesNext;
    if a.AFail? { FailIs(w.r, a.pendingView); }
    if a.ALoaded? || a.ANavigate? { FailIs(w.r, a.view); }
  }

  lemma QuietRules(manifests: map<string, Manifest>, o: Lives, a: Action)
    requires a.AFail? || a.ALoaded? || a.ANavigate? || a.AInvalidate? || a.ACloseActive? || a.ATime? || a.ADrawn?
    ensures LivesNext(manifests, o, a) ==
            match a
            case AFail(id) => GivenUp(o, id)
            case ALoaded(id, failed) => if failed then GivenUp(o, id) else o.(loaded := o.loaded + {id})
            case ANavigate(id) => GivenUp(o, id).(loaded := o.loaded - {id})
            case ACloseActive => o.(active := None)
            case ATime(to) => o.(now := to)
            case _ => o
  {
    assert ShownNext(o, a) == o.shown && WaitingNext(manifests, o, a) == o.waiting;
  }

  function GivenUp(o: Lives, id: string): Lives {
    o.(pending := if o.pending.Some? && Names(id, o.pending.value.view) then None else o.pending)
  }

  lemma SuspendRules(manifests: map<string, Manifest>, o: Lives, a: Action)
    requires a.ASuspend? || a.AHostLost?
    ensures a.ASuspend? ==>
              LivesNext(manifests, o, a) ==
              o.(suspended := a.suspend, active := if a.suspend then None else o.active,
                 pending := if a.suspend && !o.suspended then None else o.pending)
    ensures a.AHostLost? ==>
              && Judge(manifests, o, a) == Some(a.env)
              && Moved(manifests, o, a) == o.(suspended := true, active := None, pending := None)
  {
    assert ShownNext(o, a) == o.shown && WaitingNext(manifests, o, a) == o.waiting;
  }

  lemma SuspendFollows(w: World, a: Action)
    requires Good(w) && Enabled(w, a) && a.ASuspend?
    ensures Follows(w, a)
  {
    PresentedOk(w, "");
    CallOf(w, a);
    SuspendRules(w.r.manifests, LivesOf(w.r), a);
    NoMenuSuspended(w.r);
    FailIs(w.r.(p := SetSuspended(w.r.p, a.suspend).1), "");
    hide Good, FailPending, LivesNext, Next, Enabled, Follows, PresentationOk;
    Followed(w, a, Suspend(w.r, a.suspend));
  }

  lemma NoMenuSuspended(r: Runtime)
    requires PresentationOk(r)
    ensures r.p.suspended ==> r.p.activeMenu.None?
  {}

  lemma HostLostFollows(w: World, a: Action)
    requires Good(w) && Enabled(w, a) && a.AHostLost?
    ensures Follows(w, a)
  {
    PresentedOk(w, "");
    CallOf(w, a);
    SuspendRules(w.r.manifests, LivesOf(w.r), a);
    NoMenuSuspended(w.r);
    FailIs(w.r, "");
    hide Good, FailPending, Moved, Judge, Next, Enabled, Follows, PresentationOk, ApplyPolicy;
    var u := CloseMenu(FailPending(w.r, ""));
    PolicyIs(u.(p := SetSuspended(u.p, true).1), a.env);
    Followed(w, a, HostLost(w.r, a.env));
  }

  // The view is neither open nor waiting any more, and not pending.
  function Withdrawn(o: Lives, view: string): Lives {
    o.(pending := if o.pending.Some? && Names(view, o.pending.value.view) then None else o.pending,
       waiting := o.waiting - {view}, shown := o.shown - {view}, active := if o.active == Some(view) then None else o.active)
  }

  lemma WithdrawRules(manifests: map<string, Manifest>, o: Lives, a: Action)
    ensures a.AClose? ==> LivesNext(manifests, o, a) == Withdrawn(o, a.view)
    ensures a.ATearDown? ==> Moved(manifests, o, a) == Withdrawn(o, a.view).(instantiated := o.instantiated - {a.view})
    ensures a.ATearDown? ==> Judge(manifests, o, a) == if Open(o, a.view) then Some(a.env) else None
  {
    if a.AClose? || a.ATearDown? {
      assert WaitingNext(manifests, o, a) == o.waiting - {a.view};
      assert ShownNext(o, a) == o.shown - {a.view};
    }
  }

  // A shown HUD and the active menu differ, by kind.
  lemma CloseViewIs(r: Runtime, view: string)
    requires PresentationOk(r)
    ensures var p := CloseView(r.p, view).1;
            && p == r.p.(hudShown := r.p.hudShown - {view}, activeMenu := if r.p.activeMenu == Some(view) then None else r.p.activeMenu, changed := p.changed)
            && CloseView(r.p, view).0 == IsOpen(r.p, view)
  {
    hide Known;
    if view !in r.p.hudShown { assert r.p.hudShown - {view} == r.p.hudShown; }
  }

  lemma PresentedOk(w: World, view: string)
    requires Inv(w)
    ensures PresentationOk(w.r) && PresentationOk(FailPending(w.r, view))
  {
    hide CallsOk, MenuOk, PreparationOk, Known;
  }

  lemma CloseFollows(w: World, a: Action)
    requires Good(w) && Enabled(w, a) && a.AClose?
    ensures Follows(w, a)
  {
    PresentedOk(w, a.view);
    FailIs(w.r, a.view);
    WithdrawRules(w.r.manifests, LivesOf(w.r), a);
    hide Good, FailPending, PresentationOk, CloseView, LivesNext;
    CloseViewIs(FailPending(w.r, a.view), a.view);
  }

  lemma TearDownFollows(w: World, a: Action)
    requires Good(w) && Enabled(w, a) && a.ATearDown?
    ensures Follows(w, a)
  {
    PresentedOk(w, a.view);
    FailIs(w.r, a.view);
    WithdrawRules(w.r.manifests, LivesOf(w.r), a);
    hide Good, FailPending, PresentationOk, CloseView, Moved, Judge, ApplyPolicy, Removed;
    CloseViewIs(w.r, a.view);
    RemovedIs(w, a.view);
    PolicyIs(Removed(w.r, a.view), a.env);
  }

  lemma RemovedIs(w: World, view: string)
    requires Inv(w)
    ensures var o := LivesOf(w.r);
            && LivesOf(Removed(w.r, view)) == Withdrawn(o, view).(instantiated := o.instantiated - {view})
            && Removed(w.r, view).manifests == w.r.manifests && RemoveInstantiated(w.r.p, view).0 == CloseView(w.r.p, view).0
  {
    PresentedOk(w, view);
    FailIs(w.r, view);
    hide Inv, FailPending, PresentationOk, CloseView;
    CloseViewIs(FailPending(w.r, view), view);
  }

  lemma RequeueRules(manifests: map<string, Manifest>, o: Lives, a: Action)
    requires a.ARequeueHud?
    ensures LivesNext(manifests, o, a) ==
            o.(pending := if o.pending.Some? && Names(a.view, o.pending.value.view) then None else o.pending, loaded := o.loaded - {a.view},
               waiting := if a.view in o.shown then o.waiting + {a.view} else o.waiting, shown := o.shown - {a.view})
  {
    assert ShownNext(o, a) == o.shown - {a.view};
  }

  lemma RequeueFollows(w: World, a: Action)
    requires Good(w) && Enabled(w, a) && a.ARequeueHud?
    ensures Follows(w, a)
  {
    RequeueRules(w.r.manifests, LivesOf(w.r), a);
    PresentedOk(w, a.view);
    if a.view in w.r.p.hudShown { HudNotActive(w.r, a.view); }
    hide Good, FailPending, PresentationOk, CloseView, LivesNext;
    CloseViewIs(w.r, a.view);
    FailIs(if a.view in w.r.p.hudShown then w.r.(p := CloseView(w.r.p, a.view).1, huds := w.r.huds + {a.view}) else w.r, a.view);
  }

  lemma HudNotActive(r: Runtime, view: string)
    requires PresentationOk(r) && view in r.p.hudShown
    ensures r.p.activeMenu != Some(view)
  {}

  // ---- the commit ---------------------------------------------------------------------------------------------------

  lemma HudReadiness(r: Runtime, h: string, env: Env)
    requires Known(r.manifests, h, Hud)
    ensures ViewReadiness(r, h, env) == Ready <==> h in r.p.instantiated && h in r.loaded
    ensures ViewReadiness(r, h, env) == Missing <==> h !in r.p.instantiated
  {}

  lemma HudsReady(r: Runtime, env: Env)
    requires PresentationOk(r)
    ensures ReadyHuds(r, env) == (set h | h in r.huds && PageReady(LivesOf(r), h))
    ensures KeptHuds(r, env) == set h | h in r.huds && h in r.p.instantiated && h !in r.loaded
  {
    hide Known, ViewReadiness;
    forall h | h in r.huds { HudReadiness(r, h, env); }
  }

  predicate MenuPageReady(manifests: map<string, Manifest>, o: Lives, env: Env) {
    && o.pending.Some? && o.pending.value.phase == Loading && !o.suspended
    && var f := Found(manifests, o.pending.value.view);
       f.Some? && (f.value.capturesInput ==> env.attempted && env.available) && PageReady(o, o.pending.value.view)
  }

  lemma MenuReadiness(w: World, env: Env)
    requires Inv(w)
    ensures MenuReady(w.r, env) <==> MenuPageReady(w.r.manifests, LivesOf(w.r), env)
  {
    hide CallsOk, PreparationOk, PresentationOk;
  }

  // Showing HUDs adds the instantiated ones.
  lemma {:induction false} DriveHudsIs(r: Runtime, ids: seq<string>)
    requires r.menu.Some? ==> r.menu.value.view !in ids
    requires forall h | h in ids && h in r.p.instantiated :: r.p.instantiated[h].kind == Hud
    ensures var s := DriveAll(r, ids); s == r.(p := s.p) && s.p == r.p.(hudShown := s.p.hudShown, changed := s.p.changed)
    ensures forall h :: h in DriveAll(r, ids).p.hudShown <==> h in r.p.hudShown || (h in ids && h in r.p.instantiated)
    decreases |ids|
  {
    if ids != [] {
      var front, last := ids[..|ids| - 1], ids[|ids| - 1];
      TakenApart(ids);
      assert forall h :: h in ids <==> h in front || h == last;
      DriveHudsIs(r, front);
    }
  }

  lemma CommitDrives(w: World, env: Env, order: seq<string>)
    requires Inv(w) && ReadyOrder(w.r, env, order)
    ensures var o, s := LivesOf(w.r), DrivePending(w.r, env, order);
            && s.manifests == w.r.manifests
            && LivesOf(s) == o.(shown := o.shown + (set h | h in o.waiting && PageReady(o, h)),
                                waiting := (set h | h in o.waiting && h in o.instantiated && h !in o.loaded),
                                pending := if MenuReady(w.r, env) then Some(o.pending.value.(phase := Rendering)) else o.pending)
  {
    ReadyIsQueued(w, env, order);
    ReadyShown(w, env, order);
    var huds, kept := HudsOf(w.r, env, order), w.r.(huds := KeptHuds(w.r, env));
    hide Inv, ViewReadiness, OpenView, DriveAll, ReadyOrder, KeptHuds, PageReady;
    if MenuReady(w.r, env) {
      DriveCommutes(kept, huds, w.r.menu.value.(phase := Rendering));
      DriveLast(TakeReady(w.r, env), order);
    }
  }

  lemma ReadyShown(w: World, env: Env, order: seq<string>)
    requires Inv(w) && ReadyOrder(w.r, env, order)
    ensures var huds, kept := HudsOf(w.r, env, order), w.r.(huds := KeptHuds(w.r, env)); var s := DriveAll(kept, huds);
            && s == kept.(p := s.p) && s.p == w.r.p.(hudShown := s.p.hudShown, changed := s.p.changed)
            && s.p.hudShown == w.r.p.hudShown + (set h | h in w.r.huds && PageReady(LivesOf(w.r), h))
            && s.huds == (set h | h in w.r.huds && h in w.r.p.instantiated && h !in w.r.loaded)
  {
    ReadyIsQueued(w, env, order);
    PresentedOk(w, "");
    var huds, kept := HudsOf(w.r, env, order), w.r.(huds := KeptHuds(w.r, env));
    HudsReady(w.r, env);
    hide Inv, ViewReadiness, OpenView, DriveAll;
    forall h | h in huds && h in w.r.p.instantiated ensures w.r.p.instantiated[h].kind == Hud { InstantiatedHud(w.r, h); }
    DriveHudsIs(kept, huds);
  }

  lemma InstantiatedHud(r: Runtime, h: string)
    requires PresentationOk(r) && h in r.p.instantiated && Known(r.manifests, h, Hud)
    ensures r.p.instantiated[h].kind == Hud
  {}

  lemma CommitFollows(w: World, a: Action)
    requires Good(w) && Enabled(w, a) && a.ACommit?
    ensures Follows(w, a)
  {
    CommitRules(w, a);
    CommitDrives(w, a.env, a.order);
    hide Good, DrivePending, ApplyPolicy, Moved, ReadyOrder;
    PolicyIs(DrivePending(w.r, a.env, a.order), a.env);
  }

  lemma CommitRules(w: World, a: Action)
    requires Inv(w) && a.ACommit?
    ensures var o := LivesOf(w.r);
            && Judge(w.r.manifests, o, a) == Some(a.env)
            && Moved(w.r.manifests, o, a) ==
               o.(shown := o.shown + (set h | h in o.waiting && PageReady(o, h)),
                  waiting := (set h | h in o.waiting && h in o.instantiated && h !in o.loaded),
                  pending := if MenuReady(w.r, a.env) then Some(o.pending.value.(phase := Rendering)) else o.pending)
  {
    MenuReadiness(w, a.env);
    hide Inv, MenuReady;
  }

  // ---- the tick and the openings ------------------------------------------------------------------------------------

  lemma MenuUsable(w: World, env: Env)
    requires Good(w) && w.r.menu.Some?
    ensures var readiness := ViewReadiness(w.r, w.r.menu.value.view, env);
            (readiness == Missing || readiness == InputUnavailable) <==> !Usable(w.r.manifests, LivesOf(w.r), w.r.menu.value.view, env)
    ensures Preparing(w.r) ==> var v := w.r.menu.value.view; !w.r.p.suspended && v in w.r.p.instantiated && w.r.p.instantiated[v].kind == Menu
  {
    hide CallsOk, PreparationOk;
  }

  lemma TickFollows(w: World, a: Action)
    requires Good(w) && Enabled(w, a) && a.ATick?
    ensures Follows(w, a)
  {
    CallOf(w, a);
    if w.r.menu.None? {
      NoTick(w.r.manifests, LivesOf(w.r), a);
    } else {
      TickRules(w.r.manifests, LivesOf(w.r), a);
      MenuUsable(w, a.env);
      hide Good, ViewReadiness, Usable, FailPending, OpenPreparedMenu, Moved, Judge, Next, Enabled, Follows;
      FailIs(w.r, "");
      if w.r.menu.value.phase == Rendering {
        if w.r.menu.value.requestId == 0 { PlainFrame(w, a); } else { LauncherFrame(w, a); }
      }
    }
    Followed(w, a, UpdatePending(w.r, a.frameReady, a.accepted, a.env));
  }

  // A tick while the menu's frame is being prepared: for a plain open,
  lemma PlainFrame(w: World, a: Action)
    requires Good(w) && a.ATick? && w.r.menu.Some? && w.r.menu.value.phase == Rendering && w.r.menu.value.requestId == 0
    ensures var s := UpdatePending(w.r, a.frameReady, a.accepted, a.env);
            s.manifests == w.r.manifests && LivesOf(s) == LivesNext(w.r.manifests, LivesOf(w.r), a)
  {
    TickRules(w.r.manifests, LivesOf(w.r), a);
    MenuUsable(w, a.env);
    hide Good, ViewReadiness, Usable, FailPending, OpenPreparedMenu, Moved, Judge, CompleteLaunch;
    FailIs(w.r, "");
    OpenPreparedIs(w.r.(menu := Some(w.r.menu.value.(phase := Prepared))), w.r.menu.value.view, 0, a.env);
  }

  // and for a launcher's.
  lemma LauncherFrame(w: World, a: Action)
    requires Good(w) && a.ATick? && w.r.menu.Some? && w.r.menu.value.phase == Rendering && w.r.menu.value.requestId != 0
    ensures var s := UpdatePending(w.r, a.frameReady, a.accepted, a.env);
            s.manifests == w.r.manifests && LivesOf(s) == LivesNext(w.r.manifests, LivesOf(w.r), a)
  {
    TickRules(w.r.manifests, LivesOf(w.r), a);
    MenuUsable(w, a.env);
    LauncherTickIs(w.r, a.frameReady, a.accepted, a.env);
    hide Good, ViewReadiness, Usable, UpdatePending, Moved, Judge;
  }

  lemma LauncherTickIs(r: Runtime, frameReady: bool, accepted: bool, env: Env)
    requires r.menu.Some? && r.menu.value.phase == Rendering && r.menu.value.requestId != 0
    ensures var s, m := UpdatePending(r, frameReady, accepted, env), r.menu.value;
            var readiness := ViewReadiness(r, m.view, env);
            && s.manifests == r.manifests
            && LivesOf(s) ==
               if readiness == Missing || readiness == InputUnavailable then LivesOf(r).(pending := None)
               else if env.compositor && frameReady then
                 LivesOf(r).(pending := if accepted then Some(m.(phase := Prepared, deadline := r.now + OPEN_SECONDS)) else None)
               else if r.now >= m.deadline then LivesOf(r).(pending := None) else LivesOf(r)
  {
    hide ViewReadiness, FailPending;
    FailIs(r, "");
    FailIs(CompleteLaunch(r.(menu := Some(r.menu.value.(phase := Prepared))), r.menu.value.requestId, true), "");
  }

  lemma NoTick(manifests: map<string, Manifest>, o: Lives, a: Action)
    requires a.ATick? && o.pending.None?
    ensures LivesNext(manifests, o, a) == o
  {
    assert ShownNext(o, a) == o.shown && WaitingNext(manifests, o, a) == o.waiting;
  }

  lemma TickRules(manifests: map<string, Manifest>, o: Lives, a: Action)
    requires a.ATick? && o.pending.Some?
    ensures var m := o.pending.value;
            var prepared := FramePrepared(manifests, o, a);
            && Judge(manifests, o, a) == (if prepared && m.requestId == 0 then Some(a.env) else None)
            && Moved(manifests, o, a) ==
               if !Usable(manifests, o, m.view, a.env) then o.(pending := None)
               else if prepared then
                 if m.requestId == 0 then o.(pending := None, active := Some(m.view))
                 else if a.accepted then o.(pending := Some(m.(phase := Prepared, deadline := o.now + 30.0)))
                 else o.(pending := None)
               else if o.now >= m.deadline then o.(pending := None) else o
  {
    hide Usable;
    assert ShownNext(o, a) == o.shown && WaitingNext(manifests, o, a) == o.waiting;
  }

  lemma ActivationFollows(w: World, a: Action)
    requires Good(w) && Enabled(w, a) && a.AOpen? && a.activation != 0
    ensures Follows(w, a)
  {
    ActivationRules(w.r.manifests, LivesOf(w.r), a);
    if CanTakeReady(w.r, a.view, a.activation) { MenuUsable(w, a.env); }
    CallOf(w, a);
    hide Good, OpenPreparedMenu, Moved, Judge, Next, Enabled, Follows, PrepareViewOpen, Usable;
    if CanTakeReady(w.r, a.view, a.activation) {
      OpenPreparedIs(w.r, a.view, a.activation, a.env);
    } else {
      NotTaken(w.r, a.view, a.activation, a.env);
    }
    Followed(w, a, OpenPreparedMenu(w.r, a.view, a.activation, a.env));
  }

  lemma NotTaken(r: Runtime, view: string, requestId: nat, env: Env)
    requires !CanTakeReady(r, view, requestId)
    ensures OpenPreparedMenu(r, view, requestId, env) == r
  {}

  lemma ActivationRules(manifests: map<string, Manifest>, o: Lives, a: Action)
    requires a.AOpen? && a.activation != 0
    ensures var takes := o.pending.Some? && o.pending.value.phase == Prepared && o.pending.value.view == a.view && o.pending.value.requestId == a.activation;
            && Judge(manifests, o, a) == (if takes then Some(a.env) else None)
            && Moved(manifests, o, a) == if takes then o.(pending := None, active := Some(a.view)) else o
  {
    assert ShownNext(o, a) == o.shown && WaitingNext(manifests, o, a) == o.waiting;
  }

  // A view created for an open starts a new document.
  function Created(o: Lives, f: Manifest): Lives {
    if f.id in o.instantiated then o
    else o.(instantiated := o.instantiated[f.id := f], loaded := o.loaded - {f.id},
            pending := if o.pending.Some? && Names(f.id, o.pending.value.view) then None else o.pending)
  }

  lemma InstantiateIs(r: Runtime, f: Manifest, env: Env)
    ensures var (made, s) := InstantiateView(r, f, env);
            && s.manifests == r.manifests && (made <==> f.id in r.p.instantiated || env.renderer)
            && LivesOf(s) == if made then Created(LivesOf(r), f) else LivesOf(r)
  {
    hide FailPending;
    FailIs(r, f.id);
  }

  lemma PlainRules(manifests: map<string, Manifest>, o: Lives, a: Action)
    requires a.AOpen? && a.activation == 0
    requires Found(manifests, a.view).Some? && Allowed(Found(manifests, a.view).value, a.env)
    requires var f := Found(manifests, a.view).value; f.id in o.instantiated ==> o.instantiated[f.id] == f
    ensures var f := Found(manifests, a.view).value;
            if o.pending.Some? && o.pending.value.view == f.id then
              if o.pending.value.phase == Prepared then
                Judge(manifests, o, a) == Some(a.env) && Moved(manifests, o, a) == o.(pending := None, active := Some(f.id))
              else LivesNext(manifests, o, a) == o.(pending := Some(Retained(manifests, o, a)))
            else if f.id in o.waiting then LivesNext(manifests, o, a) == o
            else if Open(o, f.id) then LivesNext(manifests, o, a) == if f.kind == Menu then o.(pending := None) else o
            else if f.id !in o.instantiated && !a.env.renderer then LivesNext(manifests, o, a) == o
            else if f.kind == Hud then LivesNext(manifests, o, a) == Created(o, f).(waiting := o.waiting + {f.id})
            else LivesNext(manifests, o, a) == Created(o, f).(pending := Some(MenuOpen(f.id, o.now + 30.0, 0, Loading)))
  {
    assert ShownNext(o, a) == o.shown;
    assert Asks(manifests, o, a).None? ==> WaitingNext(manifests, o, a) == o.waiting;
    assert Asks(manifests, o, a).Some? && Asks(manifests, o, a).value.0.kind == Menu ==> WaitingNext(manifests, o, a) == o.waiting;
  }

  lemma RefusedRules(manifests: map<string, Manifest>, o: Lives, a: Action)
    requires a.AOpen? && a.activation == 0
    requires Found(manifests, a.view).None? || !Allowed(Found(manifests, a.view).value, a.env)
    ensures LivesNext(manifests, o, a) == o
  {
    assert ShownNext(o, a) == o.shown && WaitingNext(manifests, o, a) == o.waiting;
  }

  lemma LaunchRules(manifests: map<string, Manifest>, o: Lives, a: Action)
    requires a.ALaunch?
    requires var f := Found(manifests, a.view); f.Some? && f.value.id in o.instantiated ==> o.instantiated[f.value.id] == f.value
    ensures var f := Found(manifests, a.view);
            LivesNext(manifests, o, a) ==
            if Asks(manifests, o, a).Some? then Created(o, f.value).(pending := Some(MenuOpen(f.value.id, o.now + 30.0, a.requestId, Loading)))
            else o
  {
    assert ShownNext(o, a) == o.shown && WaitingNext(manifests, o, a) == o.waiting;
  }

  // A view that is created already has its own manifest.
  lemma CreatedIsOwn(w: World, id: string)
    requires Inv(w)
    ensures FindManifest(w.r, id) == Found(w.r.manifests, id)
    ensures var f := FindManifest(w.r, id); f.Some? && f.value.id in w.r.p.instantiated ==> w.r.p.instantiated[f.value.id] == f.value
  {}

  lemma LaunchFollows(w: World, a: Action)
    requires Good(w) && Enabled(w, a) && a.ALaunch?
    ensures Follows(w, a)
  {
    CreatedIsOwn(w, a.view);
    LaunchRules(w.r.manifests, LivesOf(w.r), a);
    hide Good, InstantiateView, FailPending, LivesNext;
    var found := FindManifest(w.r, a.view);
    if found.Some? {
      InstantiateIs(w.r, found.value, a.env);
      FailIs(InstantiateView(w.r, found.value, a.env).1, "");
    }
  }

  lemma SupersedeIs(r: Runtime)
    requires r.menu.Some?
    ensures var s, m := Supersede(r), r.menu.value;
            && s.manifests == r.manifests && s.menu.Some?
            && LivesOf(s) == LivesOf(r).(pending := Some(if m.requestId == 0 then m else m.(requestId := 0, deadline := r.now + 30.0)))
  {}

  // A plain open of a view that is neither waiting nor open.
  lemma AnewFollows(w: World, a: Action)
    requires Good(w) && Enabled(w, a) && a.AOpen? && a.activation == 0
    requires var f := FindManifest(w.r, a.view); f.Some? && !Contains(w.r, f.value.id) && !IsOpen(w.r.p, f.value.id)
    ensures Follows(w, a)
  {
    CreatedIsOwn(w, a.view);
    CallOf(w, a);
    var f := FindManifest(w.r, a.view).value;
    AnewIs(w.r, a, f);
    if Allowed(f, a.env) {
      PlainRules(w.r.manifests, LivesOf(w.r), a);
      hide Good, InstantiateView, LivesNext, Judge, Moved, Next, Enabled, Follows, OpenRequest, Allowed, Created;
      InstantiateIs(w.r, f, a.env);
    } else {
      RefusedRules(w.r.manifests, LivesOf(w.r), a);
    }
    Followed(w, a, OpenRequest(w.r, a.view, 0, a.env));
  }

  lemma AnewIs(r: Runtime, a: Action, f: Manifest)
    requires a.AOpen? && a.activation == 0 && FindManifest(r, a.view) == Some(f) && !Contains(r, f.id) && !IsOpen(r.p, f.id)
    ensures var (made, u) := InstantiateView(r, f, a.env); var s := OpenRequest(r, a.view, 0, a.env);
            && (!Allowed(f, a.env) ==> s == r)
            && (Allowed(f, a.env) ==>
                  && s.manifests == u.manifests
                  && LivesOf(s) == if !made then LivesOf(u)
                                   else if f.kind == Hud then LivesOf(u).(waiting := u.huds + {f.id})
                                   else LivesOf(u).(pending := Some(MenuOpen(f.id, r.now + OPEN_SECONDS, 0, Loading))))
  {
    hide InstantiateView, FailPending;
    FailIs(InstantiateView(r, f, a.env).1, "");
  }

  // Of one that waits as a HUD or is open.
  lemma OpenFollows(w: World, a: Action)
    requires Good(w) && Enabled(w, a) && a.AOpen? && a.activation == 0
    requires var f := FindManifest(w.r, a.view);
             f.Some? && (f.value.id in w.r.huds || IsOpen(w.r.p, f.value.id)) && (w.r.menu.None? || w.r.menu.value.view != f.value.id)
    ensures Follows(w, a)
  {
    CreatedIsOwn(w, a.view);
    var f := FindManifest(w.r, a.view).value;
    if Allowed(f, a.env) { PlainRules(w.r.manifests, LivesOf(w.r), a); } else { RefusedRules(w.r.manifests, LivesOf(w.r), a); }
    hide Good, FailPending, LivesNext, Judge, Moved, Supersede, OpenPreparedMenu, InstantiateView;
    FailIs(w.r, "");
  }

  // Of the pending menu.
  lemma AgainFollows(w: World, a: Action)
    requires Good(w) && Enabled(w, a) && a.AOpen? && a.activation == 0
    requires var f := FindManifest(w.r, a.view); f.Some? && w.r.menu.Some? && w.r.menu.value.view == f.value.id
    ensures Follows(w, a)
  {
    CreatedIsOwn(w, a.view);
    var f := FindManifest(w.r, a.view).value;
    AgainIs(w.r, a, f);
    CallOf(w, a);
    if Allowed(f, a.env) {
      MenuUsable(w, a.env);
      PlainRules(w.r.manifests, LivesOf(w.r), a);
      hide Good, LivesNext, Moved, Judge, Retained, OpenRequest, Usable, ViewReadiness, Next, Enabled, Follows, OpenPreparedMenu, Supersede;
      if w.r.menu.value.phase == Prepared {
        PreparedAgain(w, a, f);
      } else {
        RetainedAgain(w.r.manifests, LivesOf(w.r), a);
        SupersedeIs(w.r);
      }
    } else {
      RefusedRules(w.r.manifests, LivesOf(w.r), a);
    }
    Followed(w, a, OpenRequest(w.r, a.view, 0, a.env));
  }

  lemma RetainedAgain(manifests: map<string, Manifest>, o: Lives, a: Action)
    requires a.AOpen? && AsksAgain(manifests, o, a)
    ensures var m := o.pending.value; Retained(manifests, o, a) == if m.requestId == 0 then m else m.(requestId := 0, deadline := o.now + 30.0)
  {}

  lemma PreparedAgain(w: World, a: Action, f: Manifest)
    requires w.r.menu.Some? && w.r.menu.value.phase == Prepared && w.r.menu.value.view == f.id && a.AOpen?
    requires f.id in w.r.p.instantiated && w.r.p.instantiated[f.id].kind == Menu && !w.r.p.suspended
    requires Judge(w.r.manifests, LivesOf(w.r), a) == Some(a.env)
    requires Moved(w.r.manifests, LivesOf(w.r), a) == LivesOf(w.r).(pending := None, active := Some(f.id))
    ensures var s := OpenPreparedMenu(Supersede(w.r), f.id, 0, a.env);
            s.manifests == w.r.manifests && LivesOf(s) == LivesNext(w.r.manifests, LivesOf(w.r), a)
  {
    hide Judge, Moved, OpenPreparedMenu, Supersede;
    SupersedeIs(w.r);
    OpenPreparedIs(Supersede(w.r), f.id, 0, a.env);
  }

  lemma AgainIs(r: Runtime, a: Action, f: Manifest)
    requires a.AOpen? && a.activation == 0 && FindManifest(r, a.view) == Some(f) && r.menu.Some? && r.menu.value.view == f.id
    ensures OpenRequest(r, a.view, 0, a.env) ==
            if !Allowed(f, a.env) then r
            else if r.menu.value.phase == Prepared then OpenPreparedMenu(Supersede(r), f.id, 0, a.env) else Supersede(r)
  {
    hide OpenPreparedMenu, InstantiateView, FailPending;
  }

  lemma PlainFollows(w: World, a: Action)
    requires Good(w) && Enabled(w, a) && a.AOpen? && a.activation == 0
    ensures Follows(w, a)
  {
    var f := FindManifest(w.r, a.view);
    if f.None? {
      RefusedRules(w.r.manifests, LivesOf(w.r), a);
    } else if w.r.menu.Some? && w.r.menu.value.view == f.value.id {
      AgainFollows(w, a);
    } else if f.value.id in w.r.huds || IsOpen(w.r.p, f.value.id) {
      OpenFollows(w, a);
    } else {
      AnewFollows(w, a);
    }
  }

  lemma StepFollows(w: World, a: Action)
    requires Good(w) && Enabled(w, a)
    ensures Follows(w, a)
  {
    hide Good, Follows, Enabled;
    match a
    case ALaunch(_, _, _) => LaunchFollows(w, a);
    case AOpen(_, activation, _) => if activation == 0 { PlainFollows(w, a); } else { ActivationFollows(w, a); }
    case AClose(_) => CloseFollows(w, a);
    case ATick(_, _, _) => TickFollows(w, a);
    case ACommit(_, _) => CommitFollows(w, a);
    case ASuspend(_) => SuspendFollows(w, a);
    case AHostLost(_) => HostLostFollows(w, a);
    case ATearDown(_, _) => TearDownFollows(w, a);
    case ARequeueHud(_) => RequeueFollows(w, a);
    case _ => PlainFollow(w, a);
  }

  // One step of a run.
  lemma LivesMove(worlds: seq<World>, actions: seq<Action>, k: nat)
    requires Execution(worlds, actions) && k < |actions|
    ensures Good(worlds[k]) && Good(worlds[k + 1]) && worlds[k + 1].r.manifests == worlds[k].r.manifests
    ensures LivesOf(worlds[k + 1].r) == LivesNext(worlds[k].r.manifests, LivesOf(worlds[k].r), actions[k])
  {
    hide Inv, ScreenOk, LivesNext, Enabled, Next, LivesOf;
    ExecutionKeepsScreen(worlds, actions, k);
    ExecutionKeepsScreen(worlds, actions, k + 1);
    assert Leads(worlds[k], actions[k], worlds[k + 1]);
    StepFollows(worlds[k], actions[k]);
  }

  // After any run, which views exist, are loaded, wait, are pending, shown and active is what the actions asked for.
  lemma {:induction false} LivesAreAsAsked(worlds: seq<World>, actions: seq<Action>, n: nat)
    requires Execution(worlds, actions) && n <= |actions|
    ensures worlds[n].r.manifests == worlds[0].r.manifests
    ensures LivesOf(worlds[n].r) == Asked(worlds[0].r.manifests, worlds[0].r.now, actions, n)
  {
    hide Good, LivesNext, Leads;
    if n > 0 {
      LivesAreAsAsked(worlds, actions, n - 1);
      LivesMove(worlds, actions, n - 1);
    }
  }

  // ---- closing ----------------------------------------------------------------------------------------------------------

  // A close leaves the view neither open nor waiting, and every other view as it was.
  lemma CloseCloses(worlds: seq<World>, actions: seq<Action>, k: nat)
    requires Execution(worlds, actions) && k < |actions| && actions[k].AClose?
    ensures var o, p, view := LivesOf(worlds[k].r), LivesOf(worlds[k + 1].r), actions[k].view;
            && !Open(p, view) && !Waits(p, view)
            && (forall u | u != view :: (Open(p, u) <==> Open(o, u)) && (u in p.waiting <==> u in o.waiting))
            && (o.pending.Some? && !Names(view, o.pending.value.view) ==> p.pending == o.pending)
            && p.instantiated == o.instantiated && p.loaded == o.loaded && p.suspended == o.suspended
  {
    LivesMove(worlds, actions, k);
    WithdrawRules(worlds[k].r.manifests, LivesOf(worlds[k].r), actions[k]);
    hide Execution, Good, LivesNext;
  }

  // The step asks for the view, by its id or another spelling of it.
  predicate AsksFor(manifests: map<string, Manifest>, a: Action, view: string) {
    (a.ALaunch? || (a.AOpen? && a.activation == 0)) && Found(manifests, a.view).Some? && Found(manifests, a.view).value.id == view
  }

  // Only an open for it makes a view wait or be pending that was neither open nor waiting.
  lemma StaysClosed(manifests: map<string, Manifest>, o: Lives, a: Action, view: string)
    requires !Open(o, view) && !Waits(o, view) && !AsksFor(manifests, a, view)
    ensures var p := LivesNext(manifests, o, a); !Open(p, view) && !Waits(p, view)
  {
    hide Allowed, Usable, Forbids, GivesUp, FramePrepared;
  }

  // So a closed view stays closed until it is asked for again,
  lemma {:induction false} ClosedUntilAskedFor(worlds: seq<World>, actions: seq<Action>, i: nat, j: nat, view: string)
    requires Execution(worlds, actions) && i < j <= |actions| && actions[i] == AClose(view)
    requires forall k | i < k < j :: !AsksFor(worlds[k].r.manifests, actions[k], view)
    ensures !Open(LivesOf(worlds[j].r), view) && !Waits(LivesOf(worlds[j].r), view)
    decreases j
  {
    hide Good, LivesNext, Leads, Open, Waits, AsksFor, LivesOf;
    if j == i + 1 {
      CloseCloses(worlds, actions, i);
    } else {
      ClosedUntilAskedFor(worlds, actions, i, j - 1, view);
      LivesMove(worlds, actions, j - 1);
      StaysClosed(worlds[j - 1].r.manifests, LivesOf(worlds[j - 1].r), actions[j - 1], view);
    }
  }

  // and the next commit with a renderer takes it off the screen.
  lemma ClosedIsOffScreen(worlds: seq<World>, actions: seq<Action>, i: nat, j: nat, view: string)
    requires Execution(worlds, actions) && i < j < |actions| && actions[i] == AClose(view)
    requires forall k | i < k < j :: !AsksFor(worlds[k].r.manifests, actions[k], view)
    requires actions[j].ACommit? && actions[j].env.renderer
    ensures !OnScreen(worlds[j + 1].r, view)
  {
    hide Inv, Leads, LivesNext;
    ClosedUntilAskedFor(worlds, actions, i, j + 1, view);
    CommitPublishes(worlds, actions, j);
    ExecutionKeepsScreen(worlds, actions, j + 1);
    if view in worlds[j + 1].r.p.instantiated { ScreenFollowsPresentation(worlds, actions, j + 1, view); }
  }

  // ---- opening ------------------------------------------------------------------------------------------------------------

  // A commit shows exactly the HUDs that were shown or waited with their page there; the others go on waiting if their
  // page still loads. Unless suspended, the renderer then shows every one of them.
  lemma CommitShowsExactlyTheReadyHuds(worlds: seq<World>, actions: seq<Action>, k: nat, h: string)
    requires Execution(worlds, actions) && k < |actions| && actions[k].ACommit?
    ensures var o, p := LivesOf(worlds[k].r), LivesOf(worlds[k + 1].r);
            && (h in p.shown <==> h in o.shown || (h in o.waiting && PageReady(o, h)))
            && (h in p.waiting <==> h in o.waiting && h in o.instantiated && h !in o.loaded)
            && (h in p.shown && !p.suspended && actions[k].env.renderer ==> OnScreen(worlds[k + 1].r, h))
  {
    LivesMove(worlds, actions, k);
    PresentedOk(worlds[k + 1], "");
    if actions[k].env.renderer { CommitPublishes(worlds, actions, k); }
    hide Good, PendingNext, ActiveNext, Forbids, Inv;
    if h in worlds[k + 1].r.p.hudShown && !worlds[k + 1].r.p.changed { ScreenFollowsPresentation(worlds, actions, k + 1, h); }
  }

  // A menu asked for by a launcher or a plain open, when it is neither open nor waiting, becomes the pending one if and
  // only if the open is allowed and its page is there or can be created; a refused open changes nothing.
  lemma AskedMenuIsPendingExactlyWhen(worlds: seq<World>, actions: seq<Action>, k: nat)
    requires Execution(worlds, actions) && k < |actions| && (actions[k].ALaunch? || (actions[k].AOpen? && actions[k].activation == 0))
    requires var o, f := LivesOf(worlds[k].r), Found(worlds[k].r.manifests, actions[k].view);
             f.Some? && f.value.kind == Menu && (actions[k].AOpen? ==> !Open(o, f.value.id) && !Waits(o, f.value.id))
    ensures var o, p, a, f := LivesOf(worlds[k].r), LivesOf(worlds[k + 1].r), actions[k], Found(worlds[k].r.manifests, actions[k].view).value;
            if Allowed(f, a.env) && (a.ALaunch? ==> !o.suspended) && (f.id in o.instantiated || a.env.renderer)
            then p.pending == Some(MenuOpen(f.id, o.now + 30.0, if a.ALaunch? then a.requestId else 0, Loading)) && f.id in p.instantiated
            else p == o
  {
    hide Good, LivesNext, Leads, LivesOf, Found, Allowed, Open, Waits;
    LivesMove(worlds, actions, k);
    OwnManifest(worlds[k], actions[k].view);
    AskedRules(worlds[k].r.manifests, LivesOf(worlds[k].r), actions[k]);
  }

  lemma OwnManifest(w: World, id: string)
    requires Good(w)
    ensures var o, f := LivesOf(w.r), Found(w.r.manifests, id); f.Some? && f.value.id in o.instantiated ==> o.instantiated[f.value.id] == f.value
  {
    CreatedIsOwn(w, id);
  }

  lemma AskedRules(manifests: map<string, Manifest>, o: Lives, a: Action)
    requires a.ALaunch? || (a.AOpen? && a.activation == 0)
    requires var f := Found(manifests, a.view);
             && f.Some? && f.value.kind == Menu && (f.value.id in o.instantiated ==> o.instantiated[f.value.id] == f.value)
             && (a.AOpen? ==> !Open(o, f.value.id) && !Waits(o, f.value.id))
    ensures var p, f := LivesNext(manifests, o, a), Found(manifests, a.view).value;
            if Allowed(f, a.env) && (a.ALaunch? ==> !o.suspended) && (f.id in o.instantiated || a.env.renderer)
            then p.pending == Some(MenuOpen(f.id, o.now + 30.0, if a.ALaunch? then a.requestId else 0, Loading)) && f.id in p.instantiated
            else p == o
  {
    hide LivesNext;
    if a.ALaunch? {
      LaunchRules(manifests, o, a);
    } else if Allowed(Found(manifests, a.view).value, a.env) {
      PlainRules(manifests, o, a);
    } else {
      RefusedRules(manifests, o, a);
    }
  }

  // The commit that finds its page there, with the input it captures, starts preparing its frame.
  lemma ReadyMenuIsRendered(worlds: seq<World>, actions: seq<Action>, k: nat)
    requires Execution(worlds, actions) && k < |actions| && actions[k].ACommit?
    requires MenuPageReady(worlds[k].r.manifests, LivesOf(worlds[k].r), actions[k].env) && !Forbids(LivesOf(worlds[k].r), actions[k].env)
    ensures LivesOf(worlds[k + 1].r).pending == Some(LivesOf(worlds[k].r).pending.value.(phase := Rendering))
    ensures LivesOf(worlds[k + 1].r).instantiated == LivesOf(worlds[k].r).instantiated && !LivesOf(worlds[k + 1].r).suspended
  {
    LivesMove(worlds, actions, k);
    CommitRules(worlds[k], actions[k]);
    MenuReadiness(worlds[k], actions[k].env);
    hide Inv, ScreenOk, Leads, Moved, Judge, MenuReady;
  }

  lemma OpenPreparedPublishes(r: Runtime, view: string, requestId: nat, env: Env)
    requires ScreenOk(r) && CanTakeReady(r, view, requestId) && env.renderer
    ensures !OpenPreparedMenu(r, view, requestId, env).p.changed
  {
    hide ScreenOk, ApplyPolicy, OpenView;
    var u := EndPreparation(r.(menu := None), true);
    OpenKeepsViews(u.p, view);
    Dropped(r, u, OpenView(u.p, view).1);
    PolicyScreen(Invalidate(u.(p := OpenView(u.p, view).1)), env);
  }

  lemma OpenedIsPublished(worlds: seq<World>, actions: seq<Action>, k: nat)
    requires Execution(worlds, actions) && k < |actions| && actions[k].ATick? && actions[k].env.renderer
    requires FramePrepared(worlds[k].r.manifests, LivesOf(worlds[k].r), actions[k]) && worlds[k].r.menu.value.requestId == 0
    ensures !worlds[k + 1].r.p.changed
  {
    var w, a := worlds[k], actions[k];
    LivesMove(worlds, actions, k);
    assert Leads(w, a, worlds[k + 1]);
    CallOf(w, a);
    MenuUsable(w, a.env);
    hide Inv, ScreenOk, Next, Enabled, OpenPreparedMenu, ViewReadiness, Usable, LivesNext, FailPending;
    var u := w.r.(menu := Some(w.r.menu.value.(phase := Prepared)));
    Untouched(w.r, u);
    OpenPreparedPublishes(u, w.r.menu.value.view, 0, a.env);
  }

  // A plain menu whose frame is prepared is opened at once, and is then the active one if and only if the policy does
  // not forbid menus: the game suppressed and, for a menu that captures input, the input available.
  lemma PreparedMenuIsActiveExactlyWhen(worlds: seq<World>, actions: seq<Action>, k: nat)
    requires Execution(worlds, actions) && k < |actions|
    requires FramePrepared(worlds[k].r.manifests, LivesOf(worlds[k].r), actions[k]) && worlds[k].r.menu.value.requestId == 0
    ensures var o, p, env := LivesOf(worlds[k].r), LivesOf(worlds[k + 1].r), actions[k].env; var view := o.pending.value.view;
            && p.pending == None && view in o.instantiated
            && (p.active == Some(view) <==> !env.renderer || (env.suppressed && (o.instantiated[view].capturesInput ==> env.available)))
            && (p.active == Some(view) && env.renderer ==> OnScreen(worlds[k + 1].r, view))
  {
    LivesMove(worlds, actions, k);
    MenuUsable(worlds[k], actions[k].env);
    TickRules(worlds[k].r.manifests, LivesOf(worlds[k].r), actions[k]);
    hide Inv, ScreenOk, Leads, Usable, Moved, Judge;
    if LivesOf(worlds[k + 1].r).active == Some(worlds[k].r.menu.value.view) && actions[k].env.renderer {
      OpenedIsPublished(worlds, actions, k);
      ScreenFollowsPresentation(worlds, actions, k + 1, worlds[k].r.menu.value.view);
    }
  }

  // So a plain open whose page loads, is committed and has its frame prepared makes the menu the active one, on screen.
  lemma PlainOpenOpensTheMenu(worlds: seq<World>, actions: seq<Action>, k: nat, name: string, order: seq<string>, accepted: bool, env: Env)
    requires Execution(worlds, actions) && k + 3 < |actions| && !env.transitionOpen && env.compositor && env.hostAvailable
    requires env.renderer && env.suppressed && env.attempted && env.available
    requires var o, f := LivesOf(worlds[k].r), Found(worlds[k].r.manifests, name);
             && f.Some? && f.value.kind == Menu && !o.suspended && !Open(o, f.value.id) && !Waits(o, f.value.id)
             && actions[k] == AOpen(name, 0, env) && actions[k + 1] == ALoaded(f.value.id, false)
             && actions[k + 2] == ACommit(env, order) && actions[k + 3] == ATick(true, accepted, env)
    ensures var view := Found(worlds[k].r.manifests, name).value.id;
            LivesOf(worlds[k + 4].r).active == Some(view) && OnScreen(worlds[k + 4].r, view)
  {
    AskedAndLoaded(worlds, actions, k, name, env);
    LoadedIsRendered(worlds, actions, k + 2, Found(worlds[k].r.manifests, name).value, env);
    FrameIsPrepared(worlds[k + 3], actions[k + 3], Found(worlds[k].r.manifests, name).value);
    hide Good, Leads, LivesNext, FramePrepared;
    PreparedMenuIsActiveExactlyWhen(worlds, actions, k + 3);
  }

  lemma FrameIsPrepared(w: World, a: Action, f: Manifest)
    requires Found(w.r.manifests, f.id) == Some(f) && w.r.menu.Some? && w.r.menu.value.view == f.id && w.r.menu.value.phase == Rendering
    requires f.id in w.r.p.instantiated && a.ATick? && a.frameReady && a.env.compositor && a.env.available
    ensures FramePrepared(w.r.manifests, LivesOf(w.r), a)
  {}

  lemma LoadedIsRendered(worlds: seq<World>, actions: seq<Action>, k: nat, f: Manifest, env: Env)
    requires Execution(worlds, actions) && k < |actions| && actions[k].ACommit? && actions[k].env == env
    requires env.suppressed && env.attempted && env.available && Found(worlds[k].r.manifests, f.id) == Some(f)
    requires var o := LivesOf(worlds[k].r);
             && o.pending.Some? && o.pending.value.view == f.id && o.pending.value.requestId == 0 && o.pending.value.phase == Loading
             && !o.suspended && PageReady(o, f.id)
    ensures worlds[k + 1].r.manifests == worlds[k].r.manifests && f.id in worlds[k + 1].r.p.instantiated
    ensures var m := worlds[k + 1].r.menu; m.Some? && m.value.view == f.id && m.value.requestId == 0 && m.value.phase == Rendering
  {
    LivesMove(worlds, actions, k);
    hide Good, Leads, LivesNext, Forbids;
    NotForbidden(LivesOf(worlds[k].r), env);
    ReadyMenuIsRendered(worlds, actions, k);
  }

  lemma AskedAndLoaded(worlds: seq<World>, actions: seq<Action>, k: nat, name: string, env: Env)
    requires Execution(worlds, actions) && k + 1 < |actions| && actions[k] == AOpen(name, 0, env)
    requires var o, f := LivesOf(worlds[k].r), Found(worlds[k].r.manifests, name);
             && f.Some? && f.value.kind == Menu && !o.suspended && !Open(o, f.value.id) && !Waits(o, f.value.id)
             && Allowed(f.value, env) && env.renderer && actions[k + 1] == ALoaded(f.value.id, false)
    ensures var o, view := LivesOf(worlds[k + 2].r), Found(worlds[k].r.manifests, name).value.id;
            && worlds[k + 2].r.manifests == worlds[k].r.manifests && !o.suspended && PageReady(o, view)
            && Found(worlds[k].r.manifests, view) == Found(worlds[k].r.manifests, name)
            && o.pending.Some? && o.pending.value.view == view && o.pending.value.requestId == 0 && o.pending.value.phase == Loading
  {
    var manifests := worlds[k].r.manifests;
    AskedMenuIsPendingExactlyWhen(worlds, actions, k);
    LivesMove(worlds, actions, k);
    LivesMove(worlds, actions, k + 1);
    NotSuspendedByOpening(manifests, LivesOf(worlds[k].r), actions[k]);
    QuietRules(manifests, LivesOf(worlds[k + 1].r), actions[k + 1]);
    FoundItself(worlds[k], name);
    hide Execution, Good, LivesNext;
  }

  lemma NotForbidden(o: Lives, env: Env)
    requires env.suppressed && env.available
    ensures !Forbids(o, env)
  {}

  lemma NotSuspendedByOpening(manifests: map<string, Manifest>, o: Lives, a: Action)
    requires a.AOpen?
    ensures LivesNext(manifests, o, a).suspended == o.suspended
  {
    hide Opening, PendingNext, ActiveNext, WaitingNext, Forbids;
  }

  // A view's own id finds its manifest.
  lemma FoundItself(w: World, name: string)
    requires Inv(w) && Found(w.r.manifests, name).Some?
    ensures var f := Found(w.r.manifests, name).value; Found(w.r.manifests, f.id) == Some(f)
  {}

  // ---- what launchers are told ----------------------------------------------------------------------------------------

  // The launchers told that their menu is ready.
  function Told(r: Runtime): set<nat> {
    set c | c in r.calls && c.ready :: c.requestId
  }

  lemma CompletionTells(r: Runtime, id: nat, ready: bool)
    ensures Told(CompleteLaunch(r, id, ready)) == Told(r) + if ready then {id} else {}
  {
    var s := CompleteLaunch(r, id, ready);
    assert forall c :: c in s.calls <==> c in r.calls || c == Completion(id, ready);
    forall x | x in Told(r) + (if ready then {id} else {}) ensures x in Told(s) {
      if x in Told(r) {
        var c :| c in r.calls && c.ready && c.requestId == x;
        assert c in s.calls;
      } else {
        assert Completion(id, true) in s.calls;
      }
    }
  }

  lemma FailTells(r: Runtime, view: string)
    ensures Told(FailPending(r, view)) == Told(r)
  {
    hide Told, Sent;
    if r.menu.Some? && Names(view, r.menu.value.view) {
      var opening := r.menu.value;
      var u := r.(menu := None);
      var v := Invalidate(if opening.phase != Loading then EndPreparation(u.(screen := Sent(u.screen, Hidden(opening.view, true, false))), false) else u);
      SameCalls(r, v);
      CompletionTells(v, opening.requestId, false);
    }
  }

  lemma SameCalls(r: Runtime, s: Runtime)
    ensures s.calls == r.calls ==> Told(s) == Told(r)
  {}

  lemma PolicyTells(r: Runtime, env: Env)
    ensures Told(ApplyPolicy(r, env)) == Told(r)
  {
    hide Told, FailPending, Published, DesiredCapture;
    FailTells(r, "");
    var u := if DesiredCapture(r.p) && !env.available then CloseMenu(FailPending(r, "")) else r;
    SameCalls(FailPending(r, ""), CloseMenu(FailPending(r, "")));
    FailTells(u, "");
    SameCalls(FailPending(u, ""), CloseMenu(FailPending(u, "")));
    SameCalls(Permit(r, env), Publish(Permit(r, env)));
  }

  lemma OpenPreparedTells(r: Runtime, view: string, requestId: nat, env: Env)
    ensures Told(OpenPreparedMenu(r, view, requestId, env)) == Told(r)
  {
    hide Told, ApplyPolicy, OpenView;
    if CanTakeReady(r, view, requestId) {
      var u := EndPreparation(r.(menu := None), true);
      var v := Invalidate(u.(p := OpenView(u.p, view).1));
      SameCalls(r, v);
      PolicyTells(v, env);
    }
  }

  lemma NavigateTells(r: Runtime, view: string)
    ensures Told(Navigate(r, view)) == Told(r)
  {
    hide Told, FailPending, CreateOn;
    FailTells(r, view);
    SameCalls(FailPending(r, view), Navigate(r, view));
  }

  lemma PrepareTells(r: Runtime, id: string, requestId: nat, env: Env)
    ensures Told(PrepareViewOpen(r, id, requestId, env).1) == Told(r)
  {
    hide Told, FailPending, OpenPreparedMenu, Navigate, Supersede;
    var found := FindManifest(r, id);
    FailTells(r, "");
    if r.menu.Some? {
      SupersedeTells(r);
      if found.Some? { OpenPreparedTells(Supersede(r), found.value.id, 0, env); }
    }
    if found.Some? {
      var u := InstantiateView(r, found.value, env).1;
      NavigateTells(r, found.value.id);
      SameCalls(Navigate(r, found.value.id), u);
      SameCalls(u, u.(huds := u.huds + {found.value.id}));
      FailTells(u, "");
      SameCalls(FailPending(u, ""), FailPending(u, "").(menu := Some(MenuOpen(found.value.id, r.now + OPEN_SECONDS, requestId, Loading))));
    }
  }

  lemma SupersedeTells(r: Runtime)
    requires r.menu.Some?
    ensures Told(Supersede(r)) == Told(r)
  {
    hide Told;
    CompletionTells(r, r.menu.value.requestId, false);
    SameCalls(CompleteLaunch(r, r.menu.value.requestId, false), Supersede(r));
    SameCalls(r, Supersede(r));
  }

  // Only a tick that finds the frame prepared tells a launcher "ready".
  lemma TickTells(r: Runtime, frameReady: bool, accepted: bool, env: Env)
    ensures var readiness := if r.menu.Some? then ViewReadiness(r, r.menu.value.view, env) else Missing;
            var tells := r.menu.Some? && r.menu.value.requestId != 0 && r.menu.value.phase == Rendering && env.compositor && frameReady
                         && readiness != Missing && readiness != InputUnavailable;
            Told(UpdatePending(r, frameReady, accepted, env)) == Told(r) + if tells then {r.menu.value.requestId} else {}
  {
    hide Told, FailPending, OpenPreparedMenu, ViewReadiness;
    FailTells(r, "");
    if r.menu.Some? {
      var pending := r.menu.value;
      var u := r.(menu := Some(pending.(phase := Prepared)));
      SameCalls(r, u);
      OpenPreparedTells(u, pending.view, 0, env);
      var v := CompleteLaunch(u, pending.requestId, true);
      CompletionTells(u, pending.requestId, true);
      SameCalls(v, v.(menu := Some(pending.(phase := Prepared, deadline := r.now + OPEN_SECONDS))));
      FailTells(v, "");
    }
  }

  lemma {:induction false} DriveCalls(r: Runtime, ids: seq<string>)
    ensures DriveAll(r, ids).calls == r.calls
    decreases |ids|
  {
    if ids != [] { DriveCalls(r, ids[..|ids| - 1]); }
  }

  lemma OtherStepsTellNone(w: World, a: Action)
    requires Enabled(w, a) && !a.ATick?
    ensures Told(Next(w, a).r) == Told(w.r)
  {
    hide Told, FailPending, OpenPreparedMenu, PrepareViewOpen, ApplyPolicy, Navigate, RemoveInstantiated, CloseView, DriveAll, ReadyOrder, ReadyHuds;
    var r := w.r;
    FailTells(r, "");
    match a
    case ALaunch(view, id, env) =>
      PrepareTells(r, view, id, env);
      CompletionTells(PrepareViewOpen(r, view, id, env).1, id, false);
    case AOpen(view, id, env) => PrepareTells(r, view, 0, env); OpenPreparedTells(r, view, id, env);
    case AClose(view) => FailTells(r, view); SameCalls(FailPending(r, view), CloseRequest(r, view));
    case AFail(view) => FailTells(r, view);
    case ACommit(env, order) =>
      DriveCalls(TakeReady(r, env), order);
      SameCalls(r, DrivePending(r, env, order));
      PolicyTells(DrivePending(r, env, order), env);
    case ASuspend(suspend) =>
      SameCalls(r, r.(p := SetSuspended(r.p, suspend).1));
      FailTells(r.(p := SetSuspended(r.p, suspend).1), "");
    case ALoaded(view, _) => FailTells(r, view); SameCalls(r, r.(loaded := r.loaded + {view}));
    case ANavigate(view) => NavigateTells(r, view);
    case ATearDown(view, env) =>
      FailTells(r, view);
      SameCalls(FailPending(r, view), Removed(r, view));
      PolicyTells(Removed(r, view), env);
    case AHostLost(env) =>
      var u := CloseMenu(FailPending(r, ""));
      SameCalls(FailPending(r, ""), u.(p := SetSuspended(u.p, true).1));
      PolicyTells(u.(p := SetSuspended(u.p, true).1), env);
    case ARequeueHud(view) =>
      var u := if view in r.p.hudShown then r.(p := CloseView(r.p, view).1, huds := r.huds + {view}) else r;
      SameCalls(r, u);
      NavigateTells(u, view);
    case AInvalidate => SameCalls(r, Invalidate(r));
    case ACloseActive => SameCalls(r, CloseMenu(r));
    case ATime(to) => SameCalls(r, r.(now := to));
    case ADrawn => SameCalls(r, r.(preparation := SharedFrameModel.Idle));
    case _ =>
  }

  // Over every run, a launcher has been told "ready" if and only if some tick found the frame of its pending menu
  // prepared; so every other answer it got said the open failed.
  lemma {:induction false} ToldReadyExactlyWhenPrepared(worlds: seq<World>, actions: seq<Action>, n: nat, id: nat)
    requires Execution(worlds, actions) && n <= |actions|
    ensures Completion(id, true) in worlds[n].r.calls <==>
              id != 0 && exists k | 0 <= k < n :: PreparesFor(worlds[k].r, actions[k], id)
  {
    hide Good, Leads, PreparesFor;
    if n > 0 {
      ToldReadyExactlyWhenPrepared(worlds, actions, n - 1, id);
      StepTells(worlds, actions, n - 1, id);
    }
  }

  // The step finds the frame of the launcher's pending menu prepared.
  predicate PreparesFor(r: Runtime, a: Action, id: nat) {
    r.menu.Some? && r.menu.value.requestId == id && FramePrepared(r.manifests, LivesOf(r), a)
  }

  lemma StepTells(worlds: seq<World>, actions: seq<Action>, k: nat, id: nat)
    requires Execution(worlds, actions) && k < |actions|
    ensures Completion(id, true) in worlds[k + 1].r.calls <==>
              Completion(id, true) in worlds[k].r.calls || (id != 0 && PreparesFor(worlds[k].r, actions[k], id))
  {
    var w, a := worlds[k], actions[k];
    LivesMove(worlds, actions, k);
    assert Leads(w, a, worlds[k + 1]);
    InTold(w.r, id);
    InTold(worlds[k + 1].r, id);
    if a.ATick? {
      CallOf(w, a);
      TickTells(w.r, a.frameReady, a.accepted, a.env);
      if w.r.menu.Some? { MenuUsable(w, a.env); }
      hide Good, Told, UpdatePending, ViewReadiness, Usable, Next, LivesNext;
    } else {
      hide Good, Told, Next, LivesNext;
      OtherStepsTellNone(w, a);
    }
  }

  lemma InTold(r: Runtime, id: nat)
    ensures id in Told(r) <==> Completion(id, true) in r.calls
  {
    if id in Told(r) {
      var c :| c in r.calls && c.ready && c.requestId == id;
      assert c == Completion(id, true);
    }
  }
}
