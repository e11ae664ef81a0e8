// The messages that publish a changed presentation to the renderer (src/Runtime/Runtime.cpp:490-519): first
// every order, then the views to show, then the views to hide.
module ViewScreen {
  import opened Wrappers
  import opened Text
  import opened ViewOpenModel

  function Replay(screen: map<string, RendererView>, calls: seq<LayerCall>): (s: map<string, RendererView>)
    ensures s.Keys == screen.Keys
    decreases |calls|
  {
    if calls == [] then screen else Sent(Replay(screen, calls[..|calls| - 1]), calls[|calls| - 1])
  }

  function Orders(layers: seq<Layer>): seq<LayerCall>
    decreases |layers|
  {
    if layers == [] then [] else
    Orders(layers[..|layers| - 1]) + [Order(layers[|layers| - 1].id, layers[|layers| - 1].z)]
  }

  lemma OrdersNext(layers: seq<Layer>, i: nat)
    requires i < |layers|
    ensures Orders(layers[..i + 1]) == Orders(layers[..i]) + [Order(layers[i].id, layers[i].z)]
  {
    assert layers[..i + 1][..i] == layers[..i];
  }

  // The view a launcher waits for settles its cold open as it is shown.
  predicate Settles(menu: Option<MenuOpen>, id: string) {
    menu.Some? && menu.value.phase != Loading && menu.value.requestId != 0 && id == menu.value.view
  }

  function Shows(menu: Option<MenuOpen>, layers: seq<Layer>): seq<LayerCall>
    decreases |layers|
  {
    if layers == [] then [] else
    var l := layers[|layers| - 1];
    Shows(menu, layers[..|layers| - 1]) + if l.hidden then [] else [Hidden(l.id, false, Settles(menu, l.id))]
  }

  lemma ShowsNext(menu: Option<MenuOpen>, layers: seq<Layer>, i: nat)
    requires i < |layers|
    ensures var l := layers[i];
            Shows(menu, layers[..i + 1]) == Shows(menu, layers[..i]) + if l.hidden then [] else [Hidden(l.id, false, Settles(menu, l.id))]
  {
    hide Settles;
    assert layers[..i + 1][..i] == layers[..i];
  }

  function Hides(layers: seq<Layer>): seq<LayerCall>
    decreases |layers|
  {
    if layers == [] then [] else
    var l := layers[|layers| - 1];
    Hides(layers[..|layers| - 1]) + if l.hidden then [Hidden(l.id, true, false)] else []
  }

  lemma HidesNext(layers: seq<Layer>, i: nat)
    requires i < |layers|
    ensures Hides(layers[..i + 1]) == Hides(layers[..i]) + if layers[i].hidden then [Hidden(layers[i].id, true, false)] else []
  {
    assert layers[..i + 1][..i] == layers[..i];
  }

  lemma NoCalls(menu: Option<MenuOpen>, layers: seq<Layer>, screen: map<string, RendererView>)
    ensures Orders(layers[..0]) == [] && Shows(menu, layers[..0]) == [] && Hides(layers[..0]) == [] && Replay(screen, []) == screen
  {}

  function PolicyCalls(r: Runtime, layers: seq<Layer>): seq<LayerCall> {
    Orders(layers) + Shows(r.menu, layers) + Hides(layers)
  }

  // One layer an instantiated view, as the policy wants it.
  ghost predicate Lists(r: Runtime, layers: seq<Layer>) {
    && (forall i, j | 0 <= i < j < |layers| :: layers[i].id != layers[j].id)
    && (forall l | l in layers :: l.id in r.p.instantiated && l == PolicyLayer(r, LayerOf(r.p, l.id)))
    && (forall id | id in r.p.instantiated :: exists i :: 0 <= i < |layers| && layers[i].id == id)
  }

  // ---- replaying --------------------------------------------------------------------------------------

  lemma {:induction false} ReplayAppend(screen: map<string, RendererView>, a: seq<LayerCall>, b: seq<LayerCall>)
    ensures Replay(screen, a + b) == Replay(Replay(screen, a), b)
    decreases |b|
  {
    if b == [] {
      assert a + b == a;
    } else {
      ReplayAppend(screen, a, b[..|b| - 1]);
      assert (a + b)[..|a + b| - 1] == a + b[..|b| - 1];
    }
  }

  lemma ReplayNone(screen: map<string, RendererView>)
    ensures Replay(screen, []) == screen
  {}

  lemma ReplayOne(screen: map<string, RendererView>, calls: seq<LayerCall>, c: LayerCall)
    ensures Replay(screen, calls + [c]) == Sent(Replay(screen, calls), c)
  {
    assert (calls + [c])[..|calls|] == calls;
  }

  // What the three passes make of the view of the layers[i], and of the others.
  lemma {:induction false} OrdersDo(screen: map<string, RendererView>, layers: seq<Layer>, id: string)
    requires forall i, j | 0 <= i < j < |layers| :: layers[i].id != layers[j].id
    requires id in screen
    ensures forall i | 0 <= i < |layers| && layers[i].id == id :: Replay(screen, Orders(layers))[id] == screen[id].(order := layers[i].z)
    ensures (forall i | 0 <= i < |layers| :: layers[i].id != id) ==> Replay(screen, Orders(layers))[id] == screen[id]
    decreases |layers|
  {
    hide Replay, Orders;
    if layers == [] {
      NoCalls(None, layers, screen);
      assert layers[..0] == layers;
    } else {
      var front, l := layers[..|layers| - 1], layers[|layers| - 1];
      OrdersDo(screen, front, id);
      OrdersNext(layers, |layers| - 1);
      assert layers[..|layers|] == layers;
      ReplayOne(screen, Orders(front), Order(l.id, l.z));
    }
  }

  lemma ShowStep(menu: Option<MenuOpen>, screen: map<string, RendererView>, layers: seq<Layer>)
    ensures layers == [] ==> Replay(screen, Shows(menu, layers)) == screen
    ensures layers != [] ==>
              var l := layers[|layers| - 1]; var before := Replay(screen, Shows(menu, layers[..|layers| - 1]));
              Replay(screen, Shows(menu, layers)) == if l.hidden then before else Sent(before, Hidden(l.id, false, Settles(menu, l.id)))
  {
    hide Replay, Settles;
    if layers == [] {
      ReplayNone(screen);
    } else {
      var front, l := layers[..|layers| - 1], layers[|layers| - 1];
      assert Shows(menu, layers) == Shows(menu, front) + if l.hidden then [] else [Hidden(l.id, false, Settles(menu, l.id))];
      if l.hidden {
        assert Shows(menu, layers) == Shows(menu, front);
      } else {
        ReplayOne(screen, Shows(menu, front), Hidden(l.id, false, Settles(menu, l.id)));
      }
    }
  }

  lemma {:induction false} ShowsDo(menu: Option<MenuOpen>, screen: map<string, RendererView>, layers: seq<Layer>, id: string)
    requires forall i, j | 0 <= i < j < |layers| :: layers[i].id != layers[j].id
    requires id in screen
    ensures forall i | 0 <= i < |layers| && layers[i].id == id ::
              Replay(screen, Shows(menu, layers))[id] == if layers[i].hidden then screen[id] else screen[id].(hidden := false)
    ensures (forall i | 0 <= i < |layers| :: layers[i].id != id) ==> Replay(screen, Shows(menu, layers))[id] == screen[id]
    decreases |layers|
  {
    hide Shows, Settles;
    ShowStep(menu, screen, layers);
    if layers != [] {
      hide Replay;
      ShowsDo(menu, screen, layers[..|layers| - 1], id);
    }
  }

  lemma {:induction false} HidesDo(screen: map<string, RendererView>, layers: seq<Layer>, id: string)
    requires forall i, j | 0 <= i < j < |layers| :: layers[i].id != layers[j].id
    requires id in screen
    ensures forall i | 0 <= i < |layers| && layers[i].id == id ::
              Replay(screen, Hides(layers))[id] == if layers[i].hidden then screen[id].(hidden := true) else screen[id]
    ensures (forall i | 0 <= i < |layers| :: layers[i].id != id) ==> Replay(screen, Hides(layers))[id] == screen[id]
    decreases |layers|
  {
    if layers != [] {
      var front, l := layers[..|layers| - 1], layers[|layers| - 1];
      hide Replay;
      HidesDo(screen, front, id);
      if !l.hidden { assert Hides(layers) == Hides(front); } else { ReplayOne(screen, Hides(front), Hidden(l.id, true, false)); }
    }
  }

  // The messages leave every instantiated view as the policy wants it and touch no other.
  lemma CallsPublish(r: Runtime, layers: seq<Layer>)
    requires Lists(r, layers)
    ensures Replay(r.screen, PolicyCalls(r, layers)) == Published(r)
  {
    hide PolicyLayer, LayerOf, Orders, Shows, Hides, Replay;
    var ordered := Replay(r.screen, Orders(layers));
    var shown := Replay(ordered, Shows(r.menu, layers));
    ReplayAppend(r.screen, Orders(layers), Shows(r.menu, layers));
    ReplayAppend(r.screen, Orders(layers) + Shows(r.menu, layers), Hides(layers));
    var all := Replay(shown, Hides(layers));
    forall id | id in r.screen
      ensures all[id] == Published(r)[id]
    {
      OrdersDo(r.screen, layers, id);
      ShowsDo(r.menu, ordered, layers, id);
      HidesDo(shown, layers, id);
      if id in r.p.instantiated {
        var i :| 0 <= i < |layers| && layers[i].id == id;
        assert layers[i] in layers;
      } else {
        forall i | 0 <= i < |layers| ensures layers[i].id != id { assert layers[i] in layers; }
      }
    }
  }

  // ---- no gap -------------------------------------------------------------------------------------------

  function Visible(screen: map<string, RendererView>): set<string> {
    set id | id in screen && !screen[id].hidden
  }

  predicate HidesNone(calls: seq<LayerCall>) {
    forall c | c in calls :: !(c.Hidden? && c.hidden)
  }

  predicate ShowsNone(calls: seq<LayerCall>) {
    forall c | c in calls :: !(c.Hidden? && !c.hidden)
  }

  lemma {:induction false} OnlyGrows(screen: map<string, RendererView>, calls: seq<LayerCall>)
    requires HidesNone(calls)
    ensures Visible(screen) <= Visible(Replay(screen, calls))
    decreases |calls|
  {
    if calls != [] {
      assert calls[|calls| - 1] in calls;
      OnlyGrows(screen, calls[..|calls| - 1]);
    }
  }

  lemma {:induction false} OnlyShrinks(screen: map<string, RendererView>, calls: seq<LayerCall>)
    requires ShowsNone(calls)
    ensures Visible(Replay(screen, calls)) <= Visible(screen)
    decreases |calls|
  {
    if calls != [] {
      assert calls[|calls| - 1] in calls;
      OnlyShrinks(screen, calls[..|calls| - 1]);
    }
  }

  lemma {:induction false} PassesSplit(menu: Option<MenuOpen>, layers: seq<Layer>)
    ensures HidesNone(Orders(layers)) && HidesNone(Shows(menu, layers)) && ShowsNone(Hides(layers))
    decreases |layers|
  {
    if layers != [] { PassesSplit(menu, layers[..|layers| - 1]); }
  }

  // At no moment of the publication is a view missing both from what was visible before and from what will be
  // after: as long as anything is left to show, all that was visible still is, and all that will be visible is
  // shown before anything disappears.
  lemma NoGapWhilePublishing(r: Runtime, layers: seq<Layer>, k: nat)
    requires Lists(r, layers) && k <= |PolicyCalls(r, layers)|
    ensures var now := Visible(Replay(r.screen, PolicyCalls(r, layers)[..k]));
            Visible(r.screen) <= now || Visible(Published(r)) <= now
  {
    hide Replay, Visible, Lists, Published, Orders, Shows, Hides, HidesNone, ShowsNone;
    var grow, calls := Orders(layers) + Shows(r.menu, layers), PolicyCalls(r, layers);
    PassesSplit(r.menu, layers);
    BothHideNone(Orders(layers), Shows(r.menu, layers));
    if k <= |grow| {
      assert calls[..k] == grow[..k];
      PrefixHidesNone(grow, k);
      OnlyGrows(r.screen, grow[..k]);
    } else {
      assert calls == calls[..k] + calls[k..];
      assert calls[k..] == Hides(layers)[k - |grow|..];
      SuffixShowsNone(Hides(layers), k - |grow|);
      ReplayAppend(r.screen, calls[..k], calls[k..]);
      OnlyShrinks(Replay(r.screen, calls[..k]), calls[k..]);
      CallsPublish(r, layers);
    }
  }

  lemma BothHideNone(a: seq<LayerCall>, b: seq<LayerCall>)
    ensures HidesNone(a) && HidesNone(b) ==> HidesNone(a + b)
  {}

  lemma PrefixHidesNone(calls: seq<LayerCall>, k: nat)
    requires HidesNone(calls) && k <= |calls|
    ensures HidesNone(calls[..k])
  {}

  lemma SuffixShowsNone(calls: seq<LayerCall>, k: nat)
    requires ShowsNone(calls) && k <= |calls|
    ensures ShowsNone(calls[k..])
  {}
}
