// What the game asked the renderer for, read off the actions alone: the last size, viewport, flags and input
// target, the views in the order they were created, and the presentation epoch. The renderer has it whatever
// the connection does, and so the host ends with it, whenever the connection was made.
module HostAsked {
  import opened Wrappers
  import opened BoundedQueues
  import opened HostReplicationModel
  import opened HostReplicationProofs

  // ---- what the first n actions asked for -----------------------------------------------------------------------

  function SizeAsked(actions: seq<Action>, n: nat, initial: (nat, nat)): (nat, nat)
    requires n <= |actions|
  {
    if n == 0 then initial
    else match actions[n - 1]
      case AResize(width, height) => if width > 0 && height > 0 then (width, height) else SizeAsked(actions, n - 1, initial)
      case _ => SizeAsked(actions, n - 1, initial)
  }

  function ViewportAsked(actions: seq<Action>, n: nat, initial: (nat, nat)): (nat, nat)
    requires n <= |actions|
  {
    if n == 0 then initial
    else match actions[n - 1]
      case ASetViewport(width, height) => if width > 0 && height > 0 then (width, height) else ViewportAsked(actions, n - 1, initial)
      case _ => ViewportAsked(actions, n - 1, initial)
  }

  predicate PointerAsked(actions: seq<Action>, n: nat)
    requires n <= |actions|
  {
    if n == 0 then true
    else match actions[n - 1]
      case ASetPointerInput(enabled) => enabled
      case _ => PointerAsked(actions, n - 1)
  }

  predicate WindowAsked(actions: seq<Action>, n: nat)
    requires n <= |actions|
  {
    if n == 0 then true
    else match actions[n - 1]
      case ASetWindowActive(active) => active
      case _ => WindowAsked(actions, n - 1)
  }

  // A restart takes the focus away until it is asked for again.
  predicate FocusAsked(actions: seq<Action>, n: nat)
    requires n <= |actions|
  {
    if n == 0 then false
    else match actions[n - 1]
      case ASetInputFocus(focused) => focused
      case ARestart => false
      case _ => FocusAsked(actions, n - 1)
  }

  // What one action makes of a view; a later navigation leaves its visibility and order.
  function ViewNext(v: Option<ViewRec>, a: Action, id: string): Option<ViewRec> {
    match a
    case ACreateOrNavigate(view, entry, height, legacy) =>
      if view != id then v
      else if v.None? then Some(ViewRec(HostView(id, entry, legacy, if height > 0 then height else 1, true, 0), false))
      else Some(v.value.(mirror := v.value.mirror.(entry := entry, legacy := legacy, logicalHeight := if height > 0 then height else 1)))
    case ASetViewHidden(view, hidden, settle) =>
      if view != id || v.None? then v else Some(ViewRec(v.value.mirror.(hidden := hidden), !hidden && settle))
    case ASetViewOrder(view, order) =>
      if view != id || v.None? then v else Some(v.value.(mirror := v.value.mirror.(order := order)))
    case ADestroyView(view) => if view != id then v else None
    case _ => v
  }

  function ViewAsked(actions: seq<Action>, n: nat, id: string): Option<ViewRec>
    requires n <= |actions|
  {
    if n == 0 then None else ViewNext(ViewAsked(actions, n - 1, id), actions[n - 1], id)
  }

  function Removed(ids: seq<string>, id: string): seq<string> {
    if ids == [] then [] else if ids[0] == id then Removed(ids[1..], id) else [ids[0]] + Removed(ids[1..], id)
  }

  // The views in the order they were created.
  function IdsNext(ids: seq<string>, a: Action): seq<string> {
    match a
    case ACreateOrNavigate(view, _, _, _) => if view in ids then ids else ids + [view]
    case ADestroyView(view) => Removed(ids, view)
    case _ => ids
  }

  function IdsAsked(actions: seq<Action>, n: nat): seq<string>
    requires n <= |actions|
  {
    if n == 0 then [] else IdsNext(IdsAsked(actions, n - 1), actions[n - 1])
  }

  // The first view created, until the game names another or destroys it.
  function TargetNext(target: string, ids: seq<string>, a: Action): string {
    match a
    case ACreateOrNavigate(view, _, _, _) => if target == "" then view else target
    case ASetInputTarget(view) => if view in ids then view else target
    case ADestroyView(view) =>
      if view !in ids || target != view then target
      else if Removed(ids, view) == [] then "" else Removed(ids, view)[0]
    case _ => target
  }

  function TargetAsked(actions: seq<Action>, n: nat): string
    requires n <= |actions|
  {
    if n == 0 then "" else TargetNext(TargetAsked(actions, n - 1), IdsAsked(actions, n - 1), actions[n - 1])
  }

  // A presentation begins with a reset, a viewport of another size, and a view that is shown, or that is asked to
  // settle its cold open and was not settling one.
  predicate Begins(viewport: (nat, nat), v: Option<ViewRec>, a: Action) {
    match a
    case AResetPresentation => true
    case ASetViewport(width, height) => width > 0 && height > 0 && viewport != (width, height)
    case ASetViewHidden(_, hidden, settle) => !hidden && v.Some? && (v.value.mirror.hidden || (settle && !v.value.settleColdOpen))
    case _ => false
  }

  function EpochAsked(actions: seq<Action>, n: nat, initial: (nat, nat)): nat
    requires n <= |actions|
  {
    if n == 0 then 0 else
    var a := actions[n - 1];
    var v := if a.ASetViewHidden? then ViewAsked(actions, n - 1, a.view) else None;
    EpochAsked(actions, n - 1, initial) + if Begins(ViewportAsked(actions, n - 1, initial), v, a) then 1 else 0
  }

  // ---- views by id ------------------------------------------------------------------------------------------------

  function RecOf(views: seq<ViewRec>, id: string): Option<ViewRec> {
    if views == [] then None else if views[0].mirror.id == id then Some(views[0]) else RecOf(views[1..], id)
  }

  function Ids(views: seq<ViewRec>): seq<string> {
    if views == [] then [] else [views[0].mirror.id] + Ids(views[1..])
  }

  lemma {:induction false} IdsAt(views: seq<ViewRec>)
    ensures |Ids(views)| == |views| && forall i | 0 <= i < |views| :: Ids(views)[i] == views[i].mirror.id
  {
    if views != [] { IdsAt(views[1..]); }
  }

  lemma FindHead(views: seq<ViewRec>, id: string)
    requires views != []
    ensures Find(Mirrors(views), id) == if views[0].mirror.id == id then 0 else 1 + Find(Mirrors(views[1..]), id)
  {
    assert Mirrors(views)[1..] == Mirrors(views[1..]);
  }

  lemma NothingFound(id: string)
    ensures Find(Mirrors([]), id) == 0
  {}

  lemma {:induction false} FindIsRecOf(views: seq<ViewRec>, id: string)
    ensures var i := Find(Mirrors(views), id);
            && i <= |views| && (i < |views| <==> RecOf(views, id).Some?) && (i < |views| ==> RecOf(views, id) == Some(views[i]))
            && (i < |views| <==> id in Ids(views))
  {
    hide Find, Mirrors;
    if views == [] {
      NothingFound(id);
    } else {
      FindHead(views, id);
      FindIsRecOf(views[1..], id);
    }
  }

  lemma {:induction false} RecOfUpdate(views: seq<ViewRec>, i: nat, v: ViewRec, id: string)
    requires i < |views| && v.mirror.id == views[i].mirror.id && i == Find(Mirrors(views), v.mirror.id)
    ensures RecOf(views[i := v], id) == if id == v.mirror.id then Some(v) else RecOf(views, id)
    ensures Ids(views[i := v]) == Ids(views)
  {
    FindHead(views, v.mirror.id);
    hide Find, Mirrors;
    if views[0].mirror.id != v.mirror.id {
      assert views[i := v][1..] == views[1..][i - 1 := v];
      RecOfUpdate(views[1..], i - 1, v, id);
    } else {
      assert views[i := v][1..] == views[1..];
    }
  }

  lemma {:induction false} RecOfAppend(views: seq<ViewRec>, v: ViewRec, id: string)
    requires RecOf(views, v.mirror.id).None?
    ensures RecOf(views + [v], id) == if id == v.mirror.id then Some(v) else RecOf(views, id)
    ensures Ids(views + [v]) == Ids(views) + [v.mirror.id]
  {
    if views == [] {
      assert views + [v] == [v];
    } else {
      assert (views + [v])[1..] == views[1..] + [v];
      RecOfAppend(views[1..], v, id);
    }
  }

  lemma {:induction false} RecOfErased(views: seq<ViewRec>, gone: string, id: string)
    ensures RecOf(Erased(views, gone), id) == if id == gone then None else RecOf(views, id)
    ensures Ids(Erased(views, gone)) == Removed(Ids(views), gone)
  {
    if views != [] { RecOfErased(views[1..], gone, id); }
  }

  lemma {:induction false} NothingToErase(ids: seq<string>, id: string)
    requires id !in ids
    ensures Removed(ids, id) == ids
  {
    if ids != [] { NothingToErase(ids[1..], id); }
  }

  // ---- one action -----------------------------------------------------------------------------------------------------

  lemma OnlyQueues(r: Renderer, m: Message, early: bool)
    ensures var s := Enqueue(r, m, early); s == r.(lifecycle := s.lifecycle, outbound := s.outbound)
  {
    hide Pushed, PushOutcome, KeyOf;
  }

  predicate FieldsMove(r: Renderer, a: Action, s: Renderer) {
    && (s.width, s.height) == (if a.AResize? && a.width > 0 && a.height > 0 then (a.width, a.height) else (r.width, r.height))
    && (s.viewportWidth, s.viewportHeight) ==
       (if a.ASetViewport? && a.viewportWidth > 0 && a.viewportHeight > 0 then (a.viewportWidth, a.viewportHeight) else (r.viewportWidth, r.viewportHeight))
    && s.pointerInput == (if a.ASetPointerInput? then a.enabled else r.pointerInput)
    && s.windowActive == (if a.ASetWindowActive? then a.active else r.windowActive)
    && s.focus == (if a.ASetInputFocus? then a.focused else !a.ARestart? && r.focus)
  }

  // Everything but the connection.
  predicate KeepsAsked(r: Renderer, s: Renderer) {
    s == r.(lifecycle := s.lifecycle, outbound := s.outbound)
  }

  lemma SentKeeps(r: Renderer, m: Message)
    ensures KeepsAsked(r, Send(r, m))
  {
    OnlyQueues(r, m, false);
  }

  // One action as the rules above have it, seen from one view.
  predicate Moves(r: Renderer, a: Action, s: Renderer, id: string) {
    && FieldsMove(r, a, s)
    && RecOf(s.views, id) == ViewNext(RecOf(r.views, id), a, id) && Ids(s.views) == IdsNext(Ids(r.views), a)
    && s.inputTarget == TargetNext(r.inputTarget, Ids(r.views), a)
    && s.epoch == r.epoch + if Begins((r.viewportWidth, r.viewportHeight), if a.ASetViewHidden? then RecOf(r.views, a.view) else None, a) then 1 else 0
  }

  // What is queued and whether the connection runs make no difference.
  lemma KeptMoves(r: Renderer, a: Action, s: Renderer, t: Renderer, id: string)
    requires Moves(r, a, s, id) && KeepsAsked(s, t)
    ensures Moves(r, a, t, id)
  {}

  lemma FlagMoves(w: World, a: Action, id: string)
    requires a.AResize? || a.ASetPointerInput? || a.ASetInputFocus? || a.ASetWindowActive? || a.AInject? || a.APostWeb?
    ensures Moves(w.renderer, a, Next(w, a).renderer, id)
  {
    hide Enqueue, FindView, RecOf, Ids;
    var r := w.renderer;
    match a
    case AResize(width, height) => SentKeeps(r.(width := width, height := height), Resize(width, height));
    case ASetPointerInput(enabled) => SentKeeps(r.(pointerInput := enabled), PointerInput(enabled));
    case ASetInputFocus(focused) => SentKeeps(r.(focus := focused), Focus(focused));
    case ASetWindowActive(active) => SentKeeps(r.(windowActive := active), WindowActive(active));
    case AInject(input) => SentKeeps(r, Inject(input));
    case APostWeb(receiver, json) => OnlyQueues(r, PostWeb(receiver, json), true);
  }

  lemma ViewportMoves(w: World, a: Action, id: string)
    requires a.ASetViewport? || a.AResetPresentation?
    ensures Moves(w.renderer, a, Next(w, a).renderer, id)
  {
    hide Enqueue, RecOf, Ids;
    var r := w.renderer;
    var u := BeginPresentation(if a.ASetViewport? then r.(viewportWidth := a.viewportWidth, viewportHeight := a.viewportHeight) else r);
    SentKeeps(u, Viewport(u.viewportWidth, u.viewportHeight, u.epoch));
  }

  lemma TargetMoves(w: World, a: Action, id: string)
    requires a.ASetInputTarget?
    ensures Moves(w.renderer, a, Next(w, a).renderer, id)
  {
    FindIsRecOf(w.renderer.views, a.target);
    hide Enqueue, RecOf, Ids;
    SentKeeps(w.renderer.(inputTarget := a.target), SetInputTarget(a.target));
  }

  lemma CreateMoves(w: World, a: Action, id: string)
    requires Possible(w, a) && a.ACreateOrNavigate?
    ensures Moves(w.renderer, a, Next(w, a).renderer, id)
  {
    hide Moves, Enqueue, NavigatedRecs;
    var r, height := w.renderer, AtLeastOne(a.height);
    var u := r.(views := NavigatedRecs(r.views, a.id, a.entry, a.legacy, height), inputTarget := if r.inputTarget == "" then a.id else r.inputTarget);
    CreatedMoves(r, a, u, id);
    SentKeeps(u, Navigate(a.id, a.entry, height, a.legacy));
    KeptMoves(r, a, u, Send(u, Navigate(a.id, a.entry, height, a.legacy)), id);
  }

  lemma CreatedMoves(r: Renderer, a: Action, u: Renderer, id: string)
    requires a.ACreateOrNavigate?
    requires u == r.(views := NavigatedRecs(r.views, a.id, a.entry, a.legacy, AtLeastOne(a.height)), inputTarget := if r.inputTarget == "" then a.id else r.inputTarget)
    ensures Moves(r, a, u, id)
  {
    NavigatedRecOf(r.views, a.id, a.entry, a.legacy, AtLeastOne(a.height), id);
    FindIsRecOf(r.views, a.id);
    hide RecOf, Ids, NavigatedRecs;
  }

  lemma NavigatedRecOf(views: seq<ViewRec>, view: string, entry: string, legacy: bool, height: nat, id: string)
    ensures var after, v := NavigatedRecs(views, view, entry, legacy, height), RecOf(views, view);
            && RecOf(after, id) ==
               (if id != view then RecOf(views, id)
                else if v.None? then Some(ViewRec(HostView(view, entry, legacy, height, true, 0), false))
                else Some(v.value.(mirror := v.value.mirror.(entry := entry, legacy := legacy, logicalHeight := height))))
            && Ids(after) == if v.None? then Ids(views) + [view] else Ids(views)
  {
    var i := Find(Mirrors(views), view);
    FindIsRecOf(views, view);
    if i < |views| {
      RecOfUpdate(views, i, views[i].(mirror := views[i].mirror.(entry := entry, legacy := legacy, logicalHeight := height)), id);
    } else {
      var added := ViewRec(HostView(view, "", false, 1, true, 0), false);
      var v := added.(mirror := added.mirror.(entry := entry, legacy := legacy, logicalHeight := height));
      assert (views + [added])[|views| := v] == views + [v];
      RecOfAppend(views, v, id);
    }
  }

  lemma HiddenMoves(w: World, a: Action, id: string)
    requires a.ASetViewHidden?
    ensures Moves(w.renderer, a, Next(w, a).renderer, id)
  {
    hide Moves, SetViewHidden, FindView, Find;
    FindIsRecOf(w.renderer.views, a.view);
    if FindView(w.renderer, a.view) == |w.renderer.views| {
      AbsentMoves(w.renderer, a, id);
      NothingHidden(w.renderer, a.view, a.hidden, a.settle);
    } else {
      ShownMoves(w.renderer, a, id);
    }
  }

  lemma NothingHidden(r: Renderer, id: string, hidden: bool, settle: bool)
    requires FindView(r, id) == |r.views|
    ensures SetViewHidden(r, id, hidden, settle) == r
  {}

  lemma ShownMoves(r: Renderer, a: Action, id: string)
    requires a.ASetViewHidden? && FindView(r, a.view) < |r.views|
    ensures Moves(r, a, SetViewHidden(r, a.view, a.hidden, a.settle), id)
  {
    hide Moves, Enqueue, Mirrors, NoneVisible, Find;
    var i := FindView(r, a.view);
    FindIsRecOf(r.views, a.view);
    var v := ViewRec(r.views[i].mirror.(hidden := a.hidden), !a.hidden && a.settle);
    if r.views[i].mirror.hidden == a.hidden && (a.hidden || !a.settle || r.views[i].settleColdOpen) {
      HiddenViews(r, a, i, v, r.(views := r.views[i := v]), id);
    } else {
      var u := r.(views := r.views[i := v], allHidden := NoneVisible(r.views[i := v]));
      var p := if !a.hidden then BeginPresentation(u) else if u.allHidden then u.(framesEpoch := u.epoch, framesAccept := false) else u;
      HiddenViews(r, a, i, v, p, id);
      SentKeeps(p, SetHidden(a.view, a.hidden, p.epoch, !a.hidden && a.settle));
      KeptMoves(r, a, p, Send(p, SetHidden(a.view, a.hidden, p.epoch, !a.hidden && a.settle)), id);
    }
  }

  lemma AbsentMoves(r: Renderer, a: Action, id: string)
    requires (a.ASetViewHidden? && RecOf(r.views, a.view).None?) || (a.ASetViewOrder? && RecOf(r.views, a.orderedView).None?)
             || (a.ADestroyView? && RecOf(r.views, a.destroyed).None?)
    ensures Moves(r, a, r, id)
  {
    if a.ADestroyView? {
      FindIsRecOf(r.views, a.destroyed);
      NothingToErase(Ids(r.views), a.destroyed);
    }
  }

  lemma HiddenViews(r: Renderer, a: Action, i: nat, v: ViewRec, s: Renderer, id: string)
    requires a.ASetViewHidden? && i < |r.views| && i == Find(Mirrors(r.views), a.view) && RecOf(r.views, a.view) == Some(r.views[i])
    requires v == ViewRec(r.views[i].mirror.(hidden := a.hidden), !a.hidden && a.settle)
    requires s == r.(views := r.views[i := v], allHidden := s.allHidden, epoch := s.epoch, framesEpoch := s.framesEpoch, framesAccept := s.framesAccept)
    requires s.epoch == r.epoch + if !a.hidden && (r.views[i].mirror.hidden || (a.settle && !r.views[i].settleColdOpen)) then 1 else 0
    ensures Moves(r, a, s, id)
  {
    RecOfUpdate(r.views, i, v, id);
    hide RecOf, Ids, Find, Mirrors;
  }

  lemma OrderMoves(w: World, a: Action, id: string)
    requires a.ASetViewOrder?
    ensures Moves(w.renderer, a, Next(w, a).renderer, id)
  {
    FindIsRecOf(w.renderer.views, a.orderedView);
    hide Moves, Enqueue, Mirrors;
    var r, i := w.renderer, FindView(w.renderer, a.orderedView);
    if i == |r.views| {
      AbsentMoves(r, a, id);
    } else {
      var v := r.views[i].(mirror := r.views[i].mirror.(order := a.order));
      var u := r.(views := r.views[i := v]);
      OrderedMoves(r, a, i, v, id);
      if r.views[i].mirror.order == a.order {
        assert r.views[i := v] == r.views;
      } else {
        SentKeeps(u, SetOrder(a.orderedView, a.order));
        KeptMoves(r, a, u, Send(u, SetOrder(a.orderedView, a.order)), id);
      }
    }
  }

  lemma OrderedMoves(r: Renderer, a: Action, i: nat, v: ViewRec, id: string)
    requires a.ASetViewOrder? && i < |r.views| && i == Find(Mirrors(r.views), a.orderedView) && RecOf(r.views, a.orderedView) == Some(r.views[i])
    requires v == r.views[i].(mirror := r.views[i].mirror.(order := a.order))
    ensures Moves(r, a, r.(views := r.views[i := v]), id)
  {
    RecOfUpdate(r.views, i, v, id);
    hide RecOf, Ids, Find, Mirrors;
  }

  lemma DestroyMoves(w: World, a: Action, id: string)
    requires a.ADestroyView?
    ensures Moves(w.renderer, a, Next(w, a).renderer, id)
  {
    FindIsRecOf(w.renderer.views, a.destroyed);
    hide Moves, Enqueue, Mirrors, NoneVisible, Erased;
    var r := w.renderer;
    if FindView(r, a.destroyed) == |r.views| {
      AbsentMoves(r, a, id);
    } else {
      var views := Erased(r.views, a.destroyed);
      var u := r.(views := views, inputTarget := FirstTarget(r.inputTarget, views, a.destroyed), allHidden := NoneVisible(views));
      var s := if u.allHidden then u.(framesEpoch := u.epoch, framesAccept := false) else u;
      DestroyedMoves(r, a, s, id);
      SentKeeps(s, DestroyView(a.destroyed));
      KeptMoves(r, a, s, Send(s, DestroyView(a.destroyed)), id);
    }
  }

  lemma DestroyedMoves(r: Renderer, a: Action, s: Renderer, id: string)
    requires a.ADestroyView? && a.destroyed in Ids(r.views)
    requires s == r.(views := Erased(r.views, a.destroyed), inputTarget := s.inputTarget, allHidden := s.allHidden, framesEpoch := s.framesEpoch, framesAccept := s.framesAccept)
    requires s.inputTarget == FirstTarget(r.inputTarget, s.views, a.destroyed)
    ensures Moves(r, a, s, id)
  {
    RecOfErased(r.views, a.destroyed, id);
    IdsAt(s.views);
    hide RecOf, Erased, Removed, Ids;
  }

  lemma ConnectionMoves(w: World, a: Action, id: string)
    requires Possible(w, a) && !IsSetter(a)
    ensures Moves(w.renderer, a, Next(w, a).renderer, id)
  {
    ConnectionKeeps(w, a);
    hide RecOf, Ids, Next, Possible;
  }

  lemma ConnectionKeeps(w: World, a: Action)
    requires Possible(w, a) && !IsSetter(a)
    ensures var r, s := w.renderer, Next(w, a).renderer; KeepsAsked(if a.ARestart? then r.(focus := false) else r, s)
  {
    CallOf(w, a);
    hide Next, Possible, Connect, Deliver, Handle;
    match a
    case AConnect(_) => ConnectKeepsAsked(w.renderer);
    case ADeliver(oversized) => DeliverKeepsAsked(w, oversized);
    case AHandle => HandleKeepsAsked(w);
    case _ =>
  }

  // The call behind an action on the connection.
  lemma CallOf(w: World, a: Action)
    requires Possible(w, a) && !IsSetter(a)
    ensures a.ADeliver? ==> w.renderer.outbound.items != []
    ensures Next(w, a).renderer ==
            match a
            case AStart(adapter) => Start(w.renderer, adapter)
            case AConnect(_) => Connect(w.renderer)
            case ADeliver(oversized) => Deliver(w, oversized).renderer
            case AHandle => Handle(w).renderer
            case ALost => SignalDead(w.renderer)
            case AStop => Stop(w.renderer)
            case ARestart => RestartAfterFailure(w.renderer)
  {
    hide Connect, Deliver, Handle;
  }

  lemma ConnectKeepsAsked(r: Renderer)
    ensures KeepsAsked(r, Connect(r))
  {
    hide Bootstrap, CanPrepend, Prepended;
  }

  lemma DeliverKeepsAsked(w: World, oversized: bool)
    requires w.renderer.outbound.items != []
    ensures KeepsAsked(w.renderer, Deliver(w, oversized).renderer)
  {
    hide Pushed, PushOutcome, KeyOf, Popped;
  }

  lemma HandleKeepsAsked(w: World)
    ensures KeepsAsked(w.renderer, Handle(w).renderer)
  {
    hide Popped, Apply;
  }

  lemma StepMoves(w: World, a: Action, id: string)
    requires Possible(w, a)
    ensures Moves(w.renderer, a, Next(w, a).renderer, id)
  {
    hide Moves, Next, Possible;
    match a
    case ACreateOrNavigate(_, _, _, _) => CreateMoves(w, a, id);
    case ASetViewHidden(_, _, _) => HiddenMoves(w, a, id);
    case ASetViewOrder(_, _) => OrderMoves(w, a, id);
    case ADestroyView(_) => DestroyMoves(w, a, id);
    case ASetInputTarget(_) => TargetMoves(w, a, id);
    case ASetViewport(_, _) => ViewportMoves(w, a, id);
    case AResetPresentation => ViewportMoves(w, a, id);
    case AResize(_, _) => FlagMoves(w, a, id);
    case ASetPointerInput(_) => FlagMoves(w, a, id);
    case ASetInputFocus(_) => FlagMoves(w, a, id);
    case ASetWindowActive(_) => FlagMoves(w, a, id);
    case AInject(_) => FlagMoves(w, a, id);
    case APostWeb(_, _) => FlagMoves(w, a, id);
    case _ => ConnectionMoves(w, a, id);
  }

  // ---- every run --------------------------------------------------------------------------------------------------------

  // The size the renderer was made with; its viewport begins with the same.
  function Initial(worlds: seq<World>): (nat, nat)
    requires worlds != []
  {
    (worlds[0].renderer.width, worlds[0].renderer.height)
  }

  predicate ScalarsAsked(r: Renderer, actions: seq<Action>, n: nat, initial: (nat, nat))
    requires n <= |actions|
  {
    && (r.width, r.height) == SizeAsked(actions, n, initial) && (r.viewportWidth, r.viewportHeight) == ViewportAsked(actions, n, initial)
    && r.pointerInput == PointerAsked(actions, n) && r.windowActive == WindowAsked(actions, n) && r.focus == FocusAsked(actions, n)
    && r.epoch == EpochAsked(actions, n, initial) && r.inputTarget == TargetAsked(actions, n) && Ids(r.views) == IdsAsked(actions, n)
  }

  lemma ScalarsFollow(r: Renderer, a: Action, s: Renderer, actions: seq<Action>, n: nat, initial: (nat, nat))
    requires 0 < n <= |actions| && a == actions[n - 1] && ScalarsAsked(r, actions, n - 1, initial) && Moves(r, a, s, "")
    requires a.ASetViewHidden? ==> RecOf(r.views, a.view) == ViewAsked(actions, n - 1, a.view)
    ensures ScalarsAsked(s, actions, n, initial)
  {
    hide RecOf, Ids, ViewAsked, ViewNext, TargetNext, IdsNext, Begins;
  }

  lemma RunMoves(worlds: seq<World>, actions: seq<Action>, k: nat, id: string)
    requires Execution(worlds, actions) && k < |actions|
    ensures Moves(worlds[k].renderer, actions[k], worlds[k + 1].renderer, id)
  {
    hide Moves, Next, Possible;
    assert Leads(worlds[k], actions[k], worlds[k + 1]);
    StepMoves(worlds[k], actions[k], id);
  }

  // After any run, connected or not, the renderer has each view as the actions asked for it,
  lemma {:induction false} ViewIsAsAsked(worlds: seq<World>, actions: seq<Action>, n: nat, id: string)
    requires Execution(worlds, actions) && n <= |actions|
    ensures RecOf(worlds[n].renderer.views, id) == ViewAsked(actions, n, id)
  {
    hide Moves, Leads, ViewNext;
    if n > 0 {
      ViewIsAsAsked(worlds, actions, n - 1, id);
      RunMoves(worlds, actions, n - 1, id);
      ViewFollows(worlds[n - 1].renderer, actions[n - 1], worlds[n].renderer, id);
    }
  }

  lemma ViewFollows(r: Renderer, a: Action, s: Renderer, id: string)
    requires Moves(r, a, s, id)
    ensures RecOf(s.views, id) == ViewNext(RecOf(r.views, id), a, id)
  {}

  lemma NothingAsked(r: Renderer, width: nat, height: nat, actions: seq<Action>)
    requires r == Fresh(width, height)
    ensures ScalarsAsked(r, actions, 0, (r.width, r.height))
  {}

  // and everything else.
  lemma {:induction false} RendererIsAsAsked(worlds: seq<World>, actions: seq<Action>, n: nat)
    requires Execution(worlds, actions) && n <= |actions|
    ensures ScalarsAsked(worlds[n].renderer, actions, n, Initial(worlds))
  {
    if n == 0 {
      var width, height :| worlds[0].renderer == Fresh(width, height);
      NothingAsked(worlds[0].renderer, width, height, actions);
    } else {
      hide Moves, Leads, RecOf, ScalarsAsked, ViewAsked, Fresh;
      RendererIsAsAsked(worlds, actions, n - 1);
      RunMoves(worlds, actions, n - 1, "");
      var a := actions[n - 1];
      if a.ASetViewHidden? { ViewIsAsAsked(worlds, actions, n - 1, a.view); }
      ScalarsFollow(worlds[n - 1].renderer, a, worlds[n].renderer, actions, n, Initial(worlds));
    }
  }

  lemma IdsAreAsAsked(worlds: seq<World>, actions: seq<Action>, n: nat)
    requires Execution(worlds, actions) && n <= |actions|
    ensures Ids(worlds[n].renderer.views) == IdsAsked(actions, n)
  {
    RendererIsAsAsked(worlds, actions, n);
  }

  // The host as the game asked for it.
  predicate HostIsAsked(h: Host, actions: seq<Action>, n: nat, initial: (nat, nat))
    requires n <= |actions|
  {
    var ids := IdsAsked(actions, n);
    && (h.width, h.height) == SizeAsked(actions, n, initial) && (h.viewportWidth, h.viewportHeight) == ViewportAsked(actions, n, initial)
    && h.pointerInput == PointerAsked(actions, n) && h.windowActive == WindowAsked(actions, n) && h.focused == FocusAsked(actions, n)
    && h.announced == EpochAsked(actions, n, initial) && h.target == TargetAsked(actions, n)
    && |h.views| == |ids|
    && forall i | 0 <= i < |ids| :: ViewAsked(actions, n, ids[i]).Some? && h.views[i] == ViewAsked(actions, n, ids[i]).value.mirror
  }

  lemma MirrorIsAsked(r: Renderer, actions: seq<Action>, n: nat, initial: (nat, nat))
    requires n <= |actions| && ScalarsAsked(r, actions, n, initial) && UniqueIds(Mirrors(r.views))
    requires forall i | 0 <= i < |r.views| :: RecOf(r.views, r.views[i].mirror.id) == ViewAsked(actions, n, r.views[i].mirror.id)
    ensures HostIsAsked(Mirror(r), actions, n, initial)
  {
    hide RecOf, ViewAsked, SizeAsked, ViewportAsked, EpochAsked, TargetAsked, Find;
    IdsAt(r.views);
    forall i | 0 <= i < |r.views| ensures RecOf(r.views, r.views[i].mirror.id) == Some(r.views[i]) {
      FindIsRecOf(r.views, r.views[i].mirror.id);
      var k := Find(Mirrors(r.views), r.views[i].mirror.id);
      assert Mirrors(r.views)[i].id == r.views[i].mirror.id;
    }
  }

  // While connected, once the messages on their way are handled, the host has what the game last asked for, whether it
  // was asked before the connection or after, in this connection or an earlier one.
  lemma HostEndsWithWhatWasAsked(worlds: seq<World>, actions: seq<Action>, n: nat)
    requires Execution(worlds, actions) && n <= |actions|
    requires worlds[n].renderer.lifecycle == Running && worlds[n].hostUp
    ensures var w := worlds[n];
            && HostIsAsked(Fold(Apply, w.host, Values(w.inbound.items) + Values(w.renderer.outbound.items)), actions, n, Initial(worlds))
            && (w.inbound.items == [] && w.renderer.outbound.items == [] ==> HostIsAsked(w.host, actions, n, Initial(worlds)))
  {
    HostConvergesToTheRenderer(worlds, actions, n);
    RendererIsAsAsked(worlds, actions, n);
    ExecutionConverges(worlds, actions, n);
    UniqueViews(worlds[n].renderer);
    var r := worlds[n].renderer;
    forall i | 0 <= i < |r.views| { ViewIsAsAsked(worlds, actions, n, r.views[i].mirror.id); }
    hide HostIsAsked, ScalarsAsked, Apply, Mirror, Converging;
    MirrorIsAsked(worlds[n].renderer, actions, n, Initial(worlds));
  }

  lemma UniqueViews(r: Renderer)
    requires RendererOk(r)
    ensures UniqueIds(Mirrors(r.views))
  {}
}
