// The coordinator, the presentation controller and the runtime's open steps as the source writes them.
module ViewOpens {
  import opened Wrappers
  import opened Text
  import SharedFrameModel
  import opened ViewOpenModel
  import opened ViewScreen

  class ViewPresentationController {
    var instantiated: map<string, Manifest>
    var activeMenu: Option<string>
    var hudShown: set<string>
    var suspended: bool
    var changed: bool

    function Abs(): Presentation
      reads this
    {
      Presentation(instantiated, activeMenu, hudShown, suspended, changed)
    }

    constructor ()
      ensures Abs() == Presentation(map[], None, {}, false, false)
    {
      instantiated, activeMenu, hudShown, suspended, changed := map[], None, {}, false, false;
    }

    method AddInstantiated(m: Manifest)
      modifies this
      ensures Abs() == ViewOpenModel.AddInstantiated(old(Abs()), m)
    {
      instantiated := instantiated[m.id := m];
      changed := true;
    }

    method RemoveInstantiated(id: string) returns (closed: bool)
      modifies this
      ensures (closed, Abs()) == ViewOpenModel.RemoveInstantiated(old(Abs()), id)
    {
      closed := Close(id);
      if id in instantiated {
        instantiated := instantiated - {id};
        changed := true;
      }
    }

    method TakeChanged() returns (was: bool)
      modifies this
      ensures was == old(changed) && Abs() == old(Abs()).(changed := false)
    {
      was := changed;
      changed := false;
    }

    method Invalidate()
      modifies this
      ensures Abs() == old(Abs()).(changed := true)
    {
      changed := true;
    }

    method Open(id: string) returns (done: bool)
      modifies this
      ensures (done, Abs()) == OpenView(old(Abs()), id)
    {
      if id !in instantiated { return false; }
      if instantiated[id].kind == Hud {
        done := id !in hudShown;
        hudShown := hudShown + {id};
        changed := changed || done;
        return;
      }
      if suspended || activeMenu == Some(id) { return false; }
      activeMenu := Some(id);
      changed := true;
      return true;
    }

    method Close(id: string) returns (done: bool)
      modifies this
      ensures (done, Abs()) == CloseView(old(Abs()), id)
    {
      if id in hudShown {
        hudShown := hudShown - {id};
        changed := true;
        return true;
      }
      if activeMenu == Some(id) {
        activeMenu := None;
        changed := true;
        return true;
      }
      return false;
    }

    method CloseActiveMenu() returns (done: bool)
      modifies this
      ensures (done, Abs()) == ViewOpenModel.CloseActiveMenu(old(Abs()))
    {
      if activeMenu.None? { return false; }
      activeMenu := None;
      changed := true;
      return true;
    }

    method SetSuspended(suspend: bool) returns (done: bool)
      modifies this
      ensures (done, Abs()) == ViewOpenModel.SetSuspended(old(Abs()), suspend)
    {
      if suspended == suspend { return false; }
      suspended := suspend;
      changed := true;
      if suspended { activeMenu := None; }
      return true;
    }

    // What the loop below makes of one entry.
    method LayerFor(id: string) returns (layer: Layer)
      requires id in instantiated
      ensures layer == LayerOf(Abs(), id)
    {
      var m := instantiated[id];
      var hidden, z := true, 1000;
      if m.kind == Hud {
        hidden, z := id !in hudShown, Clamp(m.order, 0, 999);
      } else if activeMenu == Some(id) {
        hidden := false;
      }
      return Layer(id, hidden || suspended, z);
    }

    // One layer an instantiated view, in the map's order.
    method DesiredLayers() returns (layers: seq<Layer>)
      ensures |layers| == |instantiated|
      ensures Elements(layers) == LayersOf(Abs(), instantiated.Keys)
      ensures forall i, j | 0 <= i < j < |layers| :: layers[i].id != layers[j].id
    {
      hide LayerOf, LayersOf, Elements;
      layers := [];
      var todo := instantiated.Keys;
      ghost var done: set<string> := {};
      NoLayers(Abs());
      while todo != {}
        invariant todo !! done && todo + done == instantiated.Keys && |layers| == |done|
        invariant Elements(layers) == LayersOf(Abs(), done)
        invariant forall l | l in layers :: l.id in done
        invariant forall i, j | 0 <= i < j < |layers| :: layers[i].id != layers[j].id
        decreases |todo|
      {
        var id :| id in todo;
        var layer := LayerFor(id);
        ElementsAppend(layers, layer);
        LayersAdd(Abs(), done, id);
        assert layer.id == id by { LayerIsOwn(Abs(), id); }
        layers := layers + [layer];
        todo, done := todo - {id}, done + {id};
      }
      assert done == instantiated.Keys && |instantiated| == |instantiated.Keys|;
    }
  }

  // The waiting HUDs left, and those taken, while these are still to be looked at.
  function StillQueued(huds: set<string>, todo: set<string>, readiness: string -> Readiness): set<string> {
    set h | h in huds && (h in todo || (readiness(h) != Ready && readiness(h) != Missing))
  }

  function TakenOf(huds: set<string>, todo: set<string>, readiness: string -> Readiness): set<string> {
    set h | h in huds && h !in todo && readiness(h) == Ready
  }

  lemma QueueStep(huds: set<string>, todo: set<string>, readiness: string -> Readiness, h: string)
    requires h in todo && todo <= huds
    ensures StillQueued(huds, todo - {h}, readiness)
         == if readiness(h) in {Ready, Missing} then StillQueued(huds, todo, readiness) - {h} else StillQueued(huds, todo, readiness)
    ensures TakenOf(huds, todo - {h}, readiness) == if readiness(h) == Ready then TakenOf(huds, todo, readiness) + {h} else TakenOf(huds, todo, readiness)
  {}

  lemma ElementsNone<T>()
    ensures Elements<T>([]) == {}
  {}

  class ViewOpenCoordinator {
    var menu: Option<MenuOpen>
    var huds: set<string>

    constructor ()
      ensures menu == None && huds == {}
    {
      menu, huds := None, {};
    }

    method TakeMenu() returns (taken: Option<MenuOpen>)
      modifies this
      ensures taken == old(menu) && menu == None && huds == old(huds)
    {
      taken := menu;
      menu := None;
    }

    method TakeReadyMenu(view: string, requestId: nat) returns (taken: Option<MenuOpen>)
      modifies this
      ensures var ready := old(menu).Some? && old(menu).value.phase == Prepared && old(menu).value.view == view && old(menu).value.requestId == requestId;
              taken == (if ready then old(menu) else None) && menu == (if ready then None else old(menu)) && huds == old(huds)
    {
      if menu.None? || menu.value.phase != Prepared || menu.value.view != view || menu.value.requestId != requestId { return None; }
      taken := TakeMenu();
    }

    method QueueMenu(view: string, deadline: real, requestId: nat)
      modifies this
      ensures menu == Some(MenuOpen(view, deadline, requestId, Loading)) && huds == old(huds)
    {
      menu := Some(MenuOpen(view, deadline, requestId, Loading));
    }

    method QueueHud(view: string)
      modifies this
      ensures huds == old(huds) + {view} && menu == old(menu)
    {
      huds := huds + {view};
    }

    method CancelHud(view: string) returns (cancelled: bool)
      modifies this
      ensures cancelled == (view in old(huds)) && huds == old(huds) - {view} && menu == old(menu)
    {
      cancelled := view in huds;
      huds := huds - {view};
    }

    // HUDs whose page is ready leave the set, and so do vanished ones.
    method TakeReadyHuds(readiness: string -> Readiness) returns (ready: seq<string>)
      modifies this`huds
      ensures huds == set h | h in old(huds) && readiness(h) != Ready && readiness(h) != Missing
      ensures Elements(ready) == set h | h in old(huds) && readiness(h) == Ready
    {
      hide Elements;
      ready := [];
      var todo := huds;
      ElementsNone<string>();
      assert StillQueued(huds, todo, readiness) == huds && TakenOf(huds, todo, readiness) == {};
      while todo != {}
        invariant todo <= old(huds) && huds == StillQueued(old(huds), todo, readiness)
        invariant Elements(ready) == TakenOf(old(huds), todo, readiness)
        decreases |todo|
      {
        var h :| h in todo;
        QueueStep(old(huds), todo, readiness, h);
        todo := todo - {h};
        var state := readiness(h);
        if state == Missing {
          huds := huds - {h};
        } else if state == Ready {
          ElementsAppend(ready, h);
          ready := ready + [h];
          huds := huds - {h};
        }
      }
    }

    // Then a loading menu whose page is ready starts rendering.
    method TakeReady(readiness: string -> Readiness) returns (ready: seq<string>)
      modifies this
      ensures huds == set h | h in old(huds) && readiness(h) != Ready && readiness(h) != Missing
      ensures var menuReady := old(menu).Some? && old(menu).value.phase == Loading && readiness(old(menu).value.view) == Ready;
              && menu == (if menuReady then Some(old(menu).value.(phase := Rendering)) else old(menu))
              && (menuReady ==> ready != [] && ready[|ready| - 1] == old(menu).value.view)
              && Elements(if menuReady && ready != [] then ready[..|ready| - 1] else ready) == set h | h in old(huds) && readiness(h) == Ready
    {
      ready := TakeReadyHuds(readiness);
      if menu.Some? && menu.value.phase == Loading && readiness(menu.value.view) == Ready {
        menu := Some(menu.value.(phase := Rendering));
        ghost var shown := ready;
        ready := ready + [menu.value.view];
        assert ready[..|ready| - 1] == shown;
      }
    }
  }

  // What the runtime's messages do to the renderer's records, with the messages in the order they were sent.
  class LayerRenderer {
    var views: map<string, RendererView>
    ghost var sent: seq<LayerCall>

    constructor ()
      ensures views == map[] && sent == []
    {
      views := map[];
      sent := [];
    }

    method CreateOrNavigateView(id: string)
      modifies this`views
      ensures views == CreateOn(old(views), id)
    {
      if id !in views { views := views[id := RendererView(true, 0)]; }
    }

    method SetViewOrder(id: string, z: int)
      modifies this
      ensures views == Sent(old(views), Order(id, z)) && sent == old(sent) + [Order(id, z)]
    {
      sent := sent + [Order(id, z)];
      if id !in views || views[id].order == z { return; }
      views := views[id := views[id].(order := z)];
    }

    method SetViewHidden(id: string, hidden: bool, settle: bool)
      modifies this
      ensures views == Sent(old(views), Hidden(id, hidden, settle)) && sent == old(sent) + [Hidden(id, hidden, settle)]
    {
      sent := sent + [Hidden(id, hidden, settle)];
      if id !in views || views[id].hidden == hidden { return; }
      views := views[id := views[id].(hidden := hidden)];
    }
  }

  // The parts of Runtime that open views, with the settings client's completions in `calls`.
  class OpenRuntime {
    const manifests: map<string, Manifest>
    const opens: ViewOpenCoordinator
    const presentation: ViewPresentationController
    const renderer: LayerRenderer
    var preparation: SharedFrameModel.Preparation
    var loaded: set<string>
    var now: real
    var calls: seq<Completion>

    function Abs(): Runtime
      reads this, opens, presentation, renderer
    {
      Runtime(manifests, opens.menu, opens.huds, presentation.Abs(), preparation, loaded, renderer.views, now, calls)
    }

    constructor (manifests: map<string, Manifest>, now: real)
      ensures Abs() == Runtime(manifests, None, {}, Presentation(map[], None, {}, false, false), SharedFrameModel.Idle, {}, map[], now, [])
      ensures fresh(opens) && fresh(presentation) && fresh(renderer)
    {
      this.manifests := manifests;
      opens := new ViewOpenCoordinator();
      presentation := new ViewPresentationController();
      renderer := new LayerRenderer();
      preparation, loaded, calls := SharedFrameModel.Idle, {}, [];
      this.now := now;
    }

    method CompleteLaunch(requestId: nat, ready: bool)
      modifies this`calls
      ensures Abs() == ViewOpenModel.CompleteLaunch(old(Abs()), requestId, ready)
    {
      calls := calls + [Completion(requestId, ready)];
    }

    method FailPending(view: string)
      modifies this, opens, presentation, renderer
      ensures Abs() == ViewOpenModel.FailPending(old(Abs()), view)
    {
      if opens.menu.None? || (view != "" && opens.menu.value.view != view) { return; }
      var opening := opens.TakeMenu();
      if opening.value.phase != Loading {
        renderer.SetViewHidden(opening.value.view, true, false);
        preparation := SharedFrameModel.Idle;
      }
      presentation.Invalidate();
      if opening.value.requestId != 0 && opening.value.phase != Prepared { CompleteLaunch(opening.value.requestId, false); }
    }

    method ApplyPolicy(env: Env)
      modifies this, opens, presentation, renderer
      ensures Abs() == ViewOpenModel.ApplyPolicy(old(Abs()), env)
    {
      if !env.renderer { return; }
      var closed: bool;
      if DesiredCapture(presentation.Abs()) && !env.available {
        FailPending("");
        closed := presentation.CloseActiveMenu();
      }
      if !env.suppressed {
        FailPending("");
        closed := presentation.CloseActiveMenu();
      }
      assert Abs() == Permit(old(Abs()), env);
      PublishChanges();
    }

    method PublishChanges()
      modifies presentation, renderer
      ensures Abs() == ViewOpenModel.Publish(old(Abs()))
    {
      hide Published;
      var changed := presentation.TakeChanged();
      if !changed { return; }
      SamePublication(old(Abs()));
      ghost var layers := PublishLayers();
    }

    // Every message of the publication, and what it leaves at the renderer.
    method PublishLayers() returns (ghost layers: seq<Layer>)
      modifies renderer
      ensures Lists(old(Abs()), layers) && renderer.sent == old(renderer.sent) + PolicyCalls(old(Abs()), layers)
      ensures Abs() == old(Abs()).(screen := Published(old(Abs())))
    {
      hide Published, PolicyCalls, Lists, PolicyLayer;
      var wanted := PolicyLayers();
      layers := wanted;
      SendOrders(wanted);
      SendShows(wanted);
      SendHides(wanted);
      PublishedBy(old(Abs()), old(renderer.sent), layers);
    }

    method PolicyLayers() returns (layers: seq<Layer>)
      ensures Lists(Abs(), layers)
    {
      hide LayerOf, PolicyLayer, Lists, LayersOf, Elements, Lower;
      layers := presentation.DesiredLayers();
      ListedAll(presentation.Abs(), layers);
      if Preparing(Abs()) {
        var i := 0;
        ghost var plain := layers;
        while i < |layers|
          invariant i <= |layers| == |plain|
          invariant forall j | 0 <= j < i :: layers[j] == PolicyLayer(Abs(), plain[j])
          invariant forall j | i <= j < |layers| :: layers[j] == plain[j]
        {
          var id := layers[i].id;
          PolicyOf(Abs(), plain[i]);
          if Lower(id) in manifests && manifests[Lower(id)].kind == Menu {
            layers := layers[i := layers[i].(hidden := id != opens.menu.value.view)];
          }
          i := i + 1;
        }
        PolicyLists(Abs(), plain, layers);
      } else {
        PolicyLists(Abs(), layers, layers);
      }
    }

    method SendOrders(layers: seq<Layer>)
      modifies renderer
      ensures renderer.views == Replay(old(renderer.views), Orders(layers)) && renderer.sent == old(renderer.sent) + Orders(layers)
    {
      hide Orders, Replay, Sent;
      NoCalls(None, layers, renderer.views);
      var i := 0;
      while i < |layers|
        invariant i <= |layers|
        invariant renderer.views == Replay(old(renderer.views), Orders(layers[..i])) && renderer.sent == old(renderer.sent) + Orders(layers[..i])
      {
        OrdersNext(layers, i);
        renderer.SetViewOrder(layers[i].id, layers[i].z);
        ReplayOne(old(renderer.views), Orders(layers[..i]), Order(layers[i].id, layers[i].z));
        Concatenated(old(renderer.sent), Orders(layers[..i]), [Order(layers[i].id, layers[i].z)]);
        i := i + 1;
      }
      assert layers[..i] == layers;
    }

    method SendShows(layers: seq<Layer>)
      modifies renderer
      ensures var shows := Shows(opens.menu, layers);
              renderer.views == Replay(old(renderer.views), shows) && renderer.sent == old(renderer.sent) + shows
    {
      hide Shows, Replay, Sent, Settles;
      NoCalls(opens.menu, layers, renderer.views);
      var i := 0;
      while i < |layers|
        invariant i <= |layers|
        invariant renderer.views == Replay(old(renderer.views), Shows(opens.menu, layers[..i]))
        invariant renderer.sent == old(renderer.sent) + Shows(opens.menu, layers[..i])
      {
        ShowsNext(opens.menu, layers, i);
        ghost var before := Shows(opens.menu, layers[..i]);
        if !layers[i].hidden {
          var settle := Settles(opens.menu, layers[i].id);
          renderer.SetViewHidden(layers[i].id, false, settle);
          ReplayOne(old(renderer.views), before, Hidden(layers[i].id, false, settle));
          Concatenated(old(renderer.sent), before, [Hidden(layers[i].id, false, settle)]);
        } else {
          assert before + [] == before;
        }
        i := i + 1;
      }
      assert layers[..i] == layers;
    }

    method SendHides(layers: seq<Layer>)
      modifies renderer
      ensures renderer.views == Replay(old(renderer.views), Hides(layers)) && renderer.sent == old(renderer.sent) + Hides(layers)
    {
      hide Hides, Replay, Sent;
      NoCalls(None, layers, renderer.views);
      var i := 0;
      while i < |layers|
        invariant i <= |layers|
        invariant renderer.views == Replay(old(renderer.views), Hides(layers[..i])) && renderer.sent == old(renderer.sent) + Hides(layers[..i])
      {
        HidesNext(layers, i);
        ghost var before := Hides(layers[..i]);
        if layers[i].hidden {
          renderer.SetViewHidden(layers[i].id, true, false);
          ReplayOne(old(renderer.views), before, Hidden(layers[i].id, true, false));
          Concatenated(old(renderer.sent), before, [Hidden(layers[i].id, true, false)]);
        } else {
          assert before + [] == before;
        }
        i := i + 1;
      }
      assert layers[..i] == layers;
    }

    method OpenPreparedMenu(view: string, requestId: nat, env: Env)
      modifies this, opens, presentation, renderer
      ensures Abs() == ViewOpenModel.OpenPreparedMenu(old(Abs()), view, requestId, env)
    {
      var opening := opens.TakeReadyMenu(view, requestId);
      if opening.None? { return; }
      preparation := SharedFrameModel.Committed;
      var done := presentation.Open(opening.value.view);
      presentation.Invalidate();
      ApplyPolicy(env);
    }

    method NavigateView(id: string)
      modifies this, opens, presentation, renderer
      ensures Abs() == Navigate(old(Abs()), id)
    {
      FailPending(id);
      loaded := loaded - {id};
      renderer.CreateOrNavigateView(id);
    }

    method InstantiateView(m: Manifest, env: Env) returns (made: bool)
      modifies this, opens, presentation, renderer
      ensures (made, Abs()) == ViewOpenModel.InstantiateView(old(Abs()), m, env)
    {
      if m.id in presentation.instantiated { return true; }
      if !env.renderer { return false; }
      NavigateView(m.id);
      presentation.AddInstantiated(m);
      return true;
    }

    // The branch of PrepareViewOpen for a view that is already wanted.
    method OpenAgain(m: Manifest, env: Env)
      requires Contains(Abs(), m.id)
      modifies this, opens, presentation, renderer
      ensures var r := old(Abs());
              Abs() == if r.menu.None? || r.menu.value.view != m.id then r else
                       if Supersede(r).menu.value.phase == Prepared then ViewOpenModel.OpenPreparedMenu(Supersede(r), m.id, 0, env) else Supersede(r)
    {
      if opens.menu.Some? && opens.menu.value.view == m.id {
        var pending := opens.menu.value;
        if pending.requestId != 0 {
          if pending.phase != Prepared { CompleteLaunch(pending.requestId, false); }
          opens.menu := Some(pending.(requestId := 0, deadline := now + OPEN_SECONDS));
        }
        assert Abs() == Supersede(old(Abs()));
        if pending.phase == Prepared { OpenPreparedMenu(m.id, 0, env); }
      }
    }

    method PrepareViewOpen(id: string, requestId: nat, env: Env) returns (ok: bool)
      modifies this, opens, presentation, renderer
      ensures (ok, Abs()) == ViewOpenModel.PrepareViewOpen(old(Abs()), id, requestId, env)
    {
      hide ViewOpenModel.InstantiateView, ViewOpenModel.FailPending, ViewOpenModel.OpenPreparedMenu, Supersede, Contains, IsOpen, Lower;
      if Lower(id) !in manifests { return false; }
      var m := manifests[Lower(id)];
      if requestId != 0 && (m.kind != Menu || presentation.suspended) { return false; }
      if m.kind == Menu && env.transitionOpen { return false; }
      if !env.compositor { return false; }
      if !env.hostAvailable { return false; }
      if m.kind == Menu && m.capturesInput && env.attempted && !env.available { return false; }
      if requestId == 0 && Contains(Abs(), m.id) {
        OpenAgain(m, env);
        return true;
      }
      if requestId == 0 && IsOpen(presentation.Abs(), m.id) {
        if m.kind == Menu { FailPending(""); }
        return true;
      }
      TimeStays(Abs(), m, env);
      var made := InstantiateView(m, env);
      if !made { return false; }
      if m.kind == Hud {
        opens.QueueHud(m.id);
        return true;
      }
      FailPending("");
      opens.QueueMenu(m.id, now + OPEN_SECONDS, requestId);
      return true;
    }

    method LauncherOpen(id: string, requestId: nat, env: Env)
      modifies this, opens, presentation, renderer
      ensures Abs() == ViewOpenModel.LauncherOpen(old(Abs()), id, requestId, env)
    {
      hide ViewOpenModel.PrepareViewOpen;
      var ok := PrepareViewOpen(id, requestId, env);
      if !ok { CompleteLaunch(requestId, false); }
    }

    method OpenRequest(id: string, requestId: nat, env: Env)
      modifies this, opens, presentation, renderer
      ensures Abs() == ViewOpenModel.OpenRequest(old(Abs()), id, requestId, env)
    {
      hide ViewOpenModel.PrepareViewOpen, ViewOpenModel.OpenPreparedMenu;
      if requestId != 0 {
        OpenPreparedMenu(id, requestId, env);
      } else {
        var ok := PrepareViewOpen(id, 0, env);
      }
    }

    method CloseRequest(id: string)
      modifies this, opens, presentation, renderer
      ensures Abs() == ViewOpenModel.CloseRequest(old(Abs()), id)
    {
      FailPending(id);
      var cancelled := opens.CancelHud(id);
      var closed := presentation.Close(id);
    }

    // `accepted` is the settings provider's answer, should it be asked.
    method UpdatePending(frameReady: bool, accepted: bool, env: Env)
      modifies this, opens, presentation, renderer
      ensures Abs() == ViewOpenModel.UpdatePending(old(Abs()), frameReady, accepted, env)
    {
      hide ViewReadiness, ViewOpenModel.OpenPreparedMenu;
      if opens.menu.None? { return; }
      var pending := opens.menu.value;
      var readiness := ViewReadiness(Abs(), pending.view, env);
      if readiness == Missing || readiness == InputUnavailable {
        FailPending("");
        return;
      }
      if pending.phase == Rendering && env.compositor {
        if frameReady {
          opens.menu := Some(pending.(phase := Prepared));
          if pending.requestId != 0 {
            CompleteLaunch(pending.requestId, true);
            if !accepted {
              FailPending("");
            } else {
              opens.menu := Some(pending.(phase := Prepared, deadline := now + OPEN_SECONDS));
            }
          } else {
            OpenPreparedMenu(pending.view, 0, env);
          }
          return;
        }
      }
      if now >= pending.deadline { FailPending(""); }
    }

    method DrivePending(env: Env) returns (ready: seq<string>)
      modifies this, opens, presentation, renderer
      ensures ReadyOrder(old(Abs()), env, ready)
      ensures Abs() == ViewOpenModel.DrivePending(old(Abs()), env, ready)
    {
      hide ViewReadiness, DriveAll, OpenView, ReadyOrder;
      ghost var start := Abs();
      var r := Abs();
      ready := opens.TakeReady(id => ViewReadiness(r, id, env));
      assert Abs() == TakeReady(start, env);
      ListsReady(start, env, ready);
      var i := 0;
      ghost var taken := TakeReady(start, env);
      DriveNone(taken, ready);
      while i < |ready|
        invariant i <= |ready| && Abs() == DriveAll(taken, ready[..i])
      {
        DriveNext(taken, ready, i);
        if opens.menu.Some? && opens.menu.value.view == ready[i] {
          preparation := SharedFrameModel.Rendering;
          presentation.Invalidate();
        } else {
          var done := presentation.Open(ready[i]);
        }
        i := i + 1;
      }
      assert ready[..i] == ready;
    }
  }

  lemma DriveNone(r: Runtime, ids: seq<string>)
    ensures DriveAll(r, ids[..0]) == r
  {}

  lemma DriveNext(r: Runtime, ids: seq<string>, i: nat)
    requires i < |ids|
    ensures DriveAll(r, ids[..i + 1]) == DriveOne(DriveAll(r, ids[..i]), ids[i])
  {
    hide DriveOne;
    assert ids[..i + 1][..i] == ids[..i];
  }

  // The flag plays no part in what is published.
  lemma SamePublication(r: Runtime)
    ensures Published(r.(p := r.p.(changed := false))) == Published(r)
  {}

  lemma PolicyOf(r: Runtime, l: Layer)
    requires Preparing(r)
    ensures PolicyLayer(r, l) == if Lower(l.id) in r.manifests && r.manifests[Lower(l.id)].kind == Menu then l.(hidden := l.id != r.menu.value.view) else l
  {}

  lemma PolicyLists(r: Runtime, plain: seq<Layer>, layers: seq<Layer>)
    requires forall i, j | 0 <= i < j < |plain| :: plain[i].id != plain[j].id
    requires forall l | l in plain :: l.id in r.p.instantiated && l == LayerOf(r.p, l.id)
    requires forall id | id in r.p.instantiated :: exists i :: 0 <= i < |plain| && plain[i].id == id
    requires |layers| == |plain|
    requires if Preparing(r) then forall j | 0 <= j < |layers| :: layers[j] == PolicyLayer(r, plain[j]) else layers == plain
    ensures Lists(r, layers)
  {
    hide LayerOf;
    forall j | 0 <= j < |layers| ensures layers[j] == PolicyLayer(r, plain[j]) && layers[j].id == plain[j].id && plain[j] in plain {}
    forall id | id in r.p.instantiated ensures exists i :: 0 <= i < |layers| && layers[i].id == id {
      var i :| 0 <= i < |plain| && plain[i].id == id;
      assert layers[i].id == id;
    }
  }

  lemma LayerIsOwn(p: Presentation, id: string)
    requires id in p.instantiated
    ensures LayerOf(p, id).id == id
  {}

  lemma PublishedBy(r: Runtime, sent: seq<LayerCall>, layers: seq<Layer>)
    requires Lists(r, layers)
    ensures Replay(Replay(Replay(r.screen, Orders(layers)), Shows(r.menu, layers)), Hides(layers)) == Published(r)
    ensures sent + Orders(layers) + Shows(r.menu, layers) + Hides(layers) == sent + PolicyCalls(r, layers)
  {
    hide Published, Lists;
    ReplayAppend(r.screen, Orders(layers), Shows(r.menu, layers));
    ReplayAppend(r.screen, Orders(layers) + Shows(r.menu, layers), Hides(layers));
    CallsPublish(r, layers);
  }

  // Every instantiated view has its layer in the list.
  lemma ListedAll(p: Presentation, layers: seq<Layer>)
    requires Elements(layers) == LayersOf(p, p.instantiated.Keys)
    ensures forall l | l in layers :: l.id in p.instantiated && l == LayerOf(p, l.id)
    ensures forall id | id in p.instantiated :: exists i :: 0 <= i < |layers| && layers[i].id == id
  {
    forall id | id in p.instantiated ensures exists i :: 0 <= i < |layers| && layers[i].id == id {
      assert LayerOf(p, id) in LayersOf(p, p.instantiated.Keys);
      assert LayerOf(p, id) in layers;
    }
    forall l | l in layers ensures l.id in p.instantiated && l == LayerOf(p, l.id) {
      assert l in Elements(layers);
    }
  }

  lemma TimeStays(r: Runtime, m: Manifest, env: Env)
    ensures InstantiateView(r, m, env).1.now == r.now && FailPending(InstantiateView(r, m, env).1, "").now == r.now
  {}

  lemma ListsReady(r: Runtime, env: Env, ready: seq<string>)
    requires MenuReady(r, env) ==> ready != [] && ready[|ready| - 1] == r.menu.value.view
    requires Elements(if MenuReady(r, env) && ready != [] then ready[..|ready| - 1] else ready) == ReadyHuds(r, env)
    ensures ReadyOrder(r, env, ready)
  {
    hide ViewReadiness;
  }

  function LayersOf(p: Presentation, ids: set<string>): set<Layer>
    requires ids <= p.instantiated.Keys
  {
    set id | id in ids :: LayerOf(p, id)
  }

  lemma NoLayers(p: Presentation)
    ensures LayersOf(p, {}) == Elements([])
  {}

  lemma LayersAdd(p: Presentation, ids: set<string>, id: string)
    requires ids <= p.instantiated.Keys && id in p.instantiated
    ensures LayersOf(p, ids + {id}) == LayersOf(p, ids) + {LayerOf(p, id)}
  {
    hide LayerOf;
    assert id in ids + {id};
    forall l | l in LayersOf(p, ids) ensures l in LayersOf(p, ids + {id}) {
      var i :| i in ids && l == LayerOf(p, i);
      assert i in ids + {id};
    }
  }
}
