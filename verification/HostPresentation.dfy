// When the host comes to render under the epoch the game is waiting for, and when it never does.
module HostPresentation {
  import opened Wrappers
  import opened BoundedQueues
  import opened HostReplicationModel
  import opened HostReplicationProofs
  import opened HostPresentationModel

  // ---- coalescing drops the earlier of two messages about the same thing --------------------------------

  function Dropped(ms: seq<Message>, k: nat): seq<Message>
    requires k < |ms|
  {
    ms[..k] + ms[k + 1..]
  }

  predicate Superseded(ms: seq<Message>, k: nat) {
    k + 1 < |ms| && SetSame(ms[k], ms[k + 1])
  }

  predicate Droppable(ms: seq<Message>, k: nat) {
    Superseded(ms, k) || (k < |ms| && (ms[k].PostWeb? || ms[k].Inject?))
  }

  // `after` is `ms`, or `ms` without one superseded (or oversized page) message.
  ghost predicate Shorter(ms: seq<Message>, after: seq<Message>) {
    after == ms || exists k: nat | Droppable(ms, k) :: after == Dropped(ms, k)
  }

  lemma DroppedIn(ms: seq<Message>, k: nat)
    requires k < |ms|
    ensures forall m | m in Dropped(ms, k) :: m in ms
    ensures forall m | m in ms && m != ms[k] :: m in Dropped(ms, k)
  {
    forall m | m in ms && m != ms[k] ensures m in Dropped(ms, k) {
      var i :| 0 <= i < |ms| && ms[i] == m;
      if i < k { assert Dropped(ms, k)[i] == m; } else { assert Dropped(ms, k)[i - 1] == m; }
    }
  }

  lemma ShorterIn(ms: seq<Message>, after: seq<Message>)
    requires Shorter(ms, after)
    ensures forall m | m in after :: m in ms
    ensures forall m | m in ms && m.Viewport? :: m in after
  {
    hide Dropped;
    if after != ms {
      var k: nat :| Droppable(ms, k) && after == Dropped(ms, k);
      DroppedIn(ms, k);
    }
  }

  // What a push does to the queued messages.
  lemma PushShortens(q: Queue<Message>, m: Message)
    requires Keyed(q, KeyOf) && Accepted(PushOutcome(q, KeyOf(m)))
    ensures Shorter(Values(q.items) + [m], Values(Pushed(q, m, KeyOf(m)).items))
    ensures PushOutcome(q, KeyOf(m)) == Queued ==> Values(Pushed(q, m, KeyOf(m)).items) == Values(q.items) + [m]
    ensures PushOutcome(q, KeyOf(m)) == Coalesced ==>
              && q.items != [] && Superseded(Values(q.items) + [m], |q.items| - 1)
              && Values(Pushed(q, m, KeyOf(m)).items) == Dropped(Values(q.items) + [m], |q.items| - 1)
  {
    hide KeyOf;
    var after := Values(Pushed(q, m, KeyOf(m)).items);
    if PushOutcome(q, KeyOf(m)) == Coalesced {
      var n := |q.items| - 1;
      assert q.items[n] in q.items;
      SameKey(q.items[n].value, m);
      assert (Values(q.items) + [m])[n] == q.items[n].value;
      assert after == Dropped(Values(q.items) + [m], n);
    } else {
      assert after == Values(q.items) + [m];
    }
  }

  // ---- which views the host knows -----------------------------------------------------------------------

  function Ids(views: seq<HostView>): set<string> {
    set v | v in views :: v.id
  }

  function IdsAfter(ids: set<string>, m: Message): set<string> {
    match m
    case Navigate(id, _, _, _) => ids + {id}
    case DestroyView(id) => ids - {id}
    case _ => ids
  }

  function IdsAll(ids: set<string>, ms: seq<Message>): set<string>
    decreases |ms|
  {
    if ms == [] then ids else IdsAfter(IdsAll(ids, ms[..|ms| - 1]), ms[|ms| - 1])
  }

  // Every show or hide is handled while its view exists.
  predicate Known(ids: set<string>, ms: seq<Message>) {
    forall i | 0 <= i < |ms| && ms[i].SetHidden? :: ms[i].view in IdsAll(ids, ms[..i])
  }

  lemma {:induction false} IdsAppend(ids: set<string>, a: seq<Message>, b: seq<Message>)
    ensures IdsAll(ids, a + b) == IdsAll(IdsAll(ids, a), b)
    decreases |b|
  {
    if b == [] {
      assert a + b == a;
    } else {
      IdsAppend(ids, a, b[..|b| - 1]);
      assert (a + b)[..|a + b| - 1] == a + b[..|b| - 1];
    }
  }

  lemma KnownAppend(ids: set<string>, a: seq<Message>, b: seq<Message>)
    ensures Known(ids, a + b) <==> Known(ids, a) && Known(IdsAll(ids, a), b)
  {
    hide IdsAll;
    assert forall i | 0 <= i < |a| :: (a + b)[..i] == a[..i] && (a + b)[i] == a[i];
    forall i | 0 <= i < |b| ensures (a + b)[|a| + i] == b[i] && IdsAll(ids, (a + b)[..|a| + i]) == IdsAll(IdsAll(ids, a), b[..i]) {
      assert (a + b)[..|a| + i] == a + b[..i];
      IdsAppend(ids, a, b[..i]);
    }
    if Known(ids, a + b) {
      forall i | 0 <= i < |a| && a[i].SetHidden? ensures a[i].view in IdsAll(ids, a[..i]) { assert (a + b)[i].SetHidden?; }
      forall i | 0 <= i < |b| && b[i].SetHidden? ensures b[i].view in IdsAll(IdsAll(ids, a), b[..i]) { assert (a + b)[|a| + i].SetHidden?; }
    }
    if Known(ids, a) && Known(IdsAll(ids, a), b) {
      forall i | 0 <= i < |a + b| && (a + b)[i].SetHidden? ensures (a + b)[i].view in IdsAll(ids, (a + b)[..i]) {
        if i >= |a| { assert b[i - |a|].SetHidden?; }
      }
    }
  }

  lemma OneMessage(ids: set<string>, m: Message)
    ensures IdsAll(ids, [m]) == IdsAfter(ids, m) && (Known(ids, [m]) <==> (m.SetHidden? ==> m.view in ids))
  {
    assert [m][..0] == [];
    assert IdsAll(ids, [m][..0]) == ids;
  }

  // A superseded message says nothing about which views exist.
  lemma DroppedKeepsKnown(ids: set<string>, ms: seq<Message>, k: nat)
    requires Droppable(ms, k) && Known(ids, ms)
    ensures Known(ids, Dropped(ms, k)) && IdsAll(ids, Dropped(ms, k)) == IdsAll(ids, ms)
  {
    hide Known, IdsAll;
    var a, x, b := ms[..k], ms[k], ms[k + 1..];
    assert ms == a + ([x] + b) && Dropped(ms, k) == a + b;
    KnownAppend(ids, a, [x] + b);
    KnownAppend(IdsAll(ids, a), [x], b);
    KnownAppend(ids, a, b);
    OneMessage(IdsAll(ids, a), x);
    IdsAppend(ids, a, [x] + b);
    IdsAppend(IdsAll(ids, a), [x], b);
    IdsAppend(ids, a, b);
  }

  lemma ShorterKeepsKnown(ids: set<string>, ms: seq<Message>, after: seq<Message>)
    requires Shorter(ms, after) && Known(ids, ms)
    ensures Known(ids, after)
  {
    hide Known, IdsAll, Dropped;
    if after != ms {
      var k: nat :| Droppable(ms, k) && after == Dropped(ms, k);
      DroppedKeepsKnown(ids, ms, k);
    }
  }

  lemma IdsUpdate(views: seq<HostView>, i: nat, v: HostView)
    requires i < |views| && v.id == views[i].id
    ensures Ids(views[i := v]) == Ids(views)
  {
    var after := views[i := v];
    forall x | x in Ids(views) ensures x in Ids(after) {
      var j :| 0 <= j < |views| && views[j].id == x;
      assert after[j].id == x && after[j] in after;
    }
    forall x | x in Ids(after) ensures x in Ids(views) {
      var j :| 0 <= j < |after| && after[j].id == x;
      assert views[j].id == x && views[j] in views;
    }
  }

  lemma FoundExactly(views: seq<HostView>, id: string)
    ensures Find(views, id) < |views| <==> id in Ids(views)
  {
    var i := Find(views, id);
    if i < |views| { assert views[i] in views; }
    if id in Ids(views) {
      var v :| v in views && v.id == id;
    }
  }

  lemma {:induction false} IdsWithout(views: seq<HostView>, id: string)
    ensures Ids(Without(views, id)) == Ids(views) - {id}
  {
    if views != [] {
      IdsWithout(views[1..], id);
      assert views == [views[0]] + views[1..];
      assert Ids(views) == {views[0].id} + Ids(views[1..]);
      if views[0].id != id { assert Ids(Without(views, id)) == {views[0].id} + Ids(Without(views[1..], id)); }
    }
  }

  lemma IdsApply(h: Host, m: Message)
    ensures Ids(Apply(h, m).views) == IdsAfter(Ids(h.views), m)
  {
    hide Find, Without, Ids;
    match m
    case Navigate(id, entry, height, legacy) => NavigatedIds(h.views, id, entry, legacy, AtLeastOne(height));
    case SetHidden(id, hidden, _, _) =>
      var i := Find(h.views, id);
      if i < |h.views| { IdsUpdate(h.views, i, h.views[i].(hidden := hidden)); }
    case SetOrder(id, order) =>
      var i := Find(h.views, id);
      if i < |h.views| { IdsUpdate(h.views, i, h.views[i].(order := order)); }
    case DestroyView(id) => IdsWithout(h.views, id);
    case _ =>
  }

  lemma NavigatedIds(views: seq<HostView>, id: string, entry: string, legacy: bool, height: nat)
    ensures Ids(Navigated(views, id, entry, legacy, height)) == Ids(views) + {id}
  {
    var i := Find(views, id);
    if i < |views| {
      hide Ids;
      IdsUpdate(views, i, views[i].(entry := entry, legacy := legacy, logicalHeight := height));
      FoundExactly(views, id);
    } else {
      var v := HostView(id, entry, legacy, height, true, 0);
      assert Navigated(views, id, entry, legacy, height) == views + [v];
      assert Ids(views + [v]) == Ids(views) + {id};
    }
  }

  lemma {:induction false} IdsFold(h: Host, ms: seq<Message>)
    ensures Ids(Fold(Apply, h, ms).views) == IdsAll(Ids(h.views), ms)
    decreases |ms|
  {
    hide Apply, Ids, IdsAfter;
    if ms != [] {
      IdsFold(h, ms[..|ms| - 1]);
      IdsApply(Fold(Apply, h, ms[..|ms| - 1]), ms[|ms| - 1]);
    }
  }

  // ---- what was last said about a view --------------------------------------------------------------------

  predicate Speaks(m: Message, view: string) {
    (m.SetHidden? && m.view == view) || (m.DestroyView? && m.destroyed == view)
  }

  function LastSay(ms: seq<Message>, view: string): Option<Message>
    decreases |ms|
  {
    if ms == [] then None
    else if Speaks(ms[|ms| - 1], view) then Some(ms[|ms| - 1])
    else LastSay(ms[..|ms| - 1], view)
  }

  lemma {:induction false} LastSayAppend(a: seq<Message>, b: seq<Message>, view: string)
    ensures LastSay(a + b, view) == if LastSay(b, view).Some? then LastSay(b, view) else LastSay(a, view)
    decreases |b|
  {
    if b == [] {
      assert a + b == a;
    } else {
      LastSayAppend(a, b[..|b| - 1], view);
      assert (a + b)[..|a + b| - 1] == a + b[..|b| - 1];
    }
  }

  lemma LastSayOne(m: Message, view: string)
    ensures LastSay([m], view) == if Speaks(m, view) then Some(m) else None
  {
    assert [m][..0] == [];
  }

  // A superseded message is not the last word.
  lemma DroppedKeepsLastSay(ms: seq<Message>, k: nat, view: string)
    requires Droppable(ms, k)
    ensures LastSay(Dropped(ms, k), view) == LastSay(ms, view)
  {
    hide LastSay;
    var a, x, b := ms[..k], ms[k], ms[k + 1..];
    assert ms == a + ([x] + b) && Dropped(ms, k) == a + b;
    LastSayAppend(a, [x] + b, view);
    LastSayAppend([x], b, view);
    LastSayAppend(a, b, view);
    LastSayOne(x, view);
    if Speaks(x, view) {
      var y, c := ms[k + 1], ms[k + 2..];
      assert b == [y] + c;
      LastSayAppend([y], c, view);
      LastSayOne(y, view);
    }
  }

  lemma ShorterKeepsLastSay(ms: seq<Message>, after: seq<Message>, view: string)
    requires Shorter(ms, after)
    ensures LastSay(after, view) == LastSay(ms, view)
  {
    hide LastSay, Dropped;
    if after != ms {
      var k: nat :| Droppable(ms, k) && after == Dropped(ms, k);
      DroppedKeepsLastSay(ms, k, view);
    }
  }

  lemma {:induction false} LastSayIn(ms: seq<Message>, view: string)
    ensures LastSay(ms, view).Some? ==> LastSay(ms, view).value in ms && Speaks(LastSay(ms, view).value, view)
    decreases |ms|
  {
    if ms != [] && !Speaks(ms[|ms| - 1], view) { LastSayIn(ms[..|ms| - 1], view); }
  }

  // ---- how one step moves the undelivered messages ----------------------------------------------------------

  lemma ShorterWithin(before: seq<Message>, ms: seq<Message>, after: seq<Message>, rest: seq<Message>)
    requires Shorter(ms, after)
    ensures Shorter(before + ms + rest, before + after + rest)
  {
    if after != ms {
      var k: nat :| Droppable(ms, k) && after == Dropped(ms, k);
      var all := before + ms + rest;
      assert all[|before| + k] == ms[k] && (k + 1 < |ms| ==> all[|before| + k + 1] == ms[k + 1]);
      assert Droppable(all, |before| + k);
      assert before + after + rest == Dropped(all, |before| + k);
    }
  }

  // From `r` to `s` the message, if any, was queued or refused, and it alone begins an epoch.
  predicate Sends(r: Renderer, s: Renderer, m: Option<Message>) {
    && s.epoch == (if m.Some? && Begins(m.value) then r.epoch + 1 else r.epoch)
    && (s.lifecycle == Running ==> r.lifecycle == Running)
    && (m.None? ==> s.outbound == r.outbound)
    && (m.Some? ==> s.outbound.items == r.outbound.items || s.outbound.items == Pushed(r.outbound, m.value, KeyOf(m.value)).items)
    && (m.Some? && s.lifecycle == Running ==>
          PushOutcome(r.outbound, KeyOf(m.value)) != Full && s.outbound == Pushed(r.outbound, m.value, KeyOf(m.value)))
  }

  lemma SendEffect(r: Renderer, u: Renderer, m: Message, early: bool)
    requires u.lifecycle == r.lifecycle && u.outbound == r.outbound && u.epoch == if Begins(m) then r.epoch + 1 else r.epoch
    ensures Sends(r, Enqueue(u, m, early), Some(m))
  {
    hide KeyOf, Begins;
  }

  lemma SetterSends(w: World, a: Action)
    requires IsSetter(a) && Possible(w, a)
    ensures Sends(w.renderer, HostReplicationProofs.Next(w, a).renderer, SentBy(w.renderer, a))
  {
    hide KeyOf, Enqueue, Find, Mirrors, Erased, NavigatedRecs, NoneVisible, SetViewHidden, DestroyOne;
    var r := w.renderer;
    match a
    case ASetViewport(_, _) => ViewportSends(w, a);
    case AResetPresentation => ViewportSends(w, a);
    case ASetViewHidden(id, hidden, settle) => HiddenSends(r, id, hidden, settle);
    case ADestroyView(id) => DestroySends(r, id);
    case ACreateOrNavigate(_, _, _, _) => ViewSends(w, a);
    case ASetViewOrder(_, _) => ViewSends(w, a);
    case APostWeb(_, _) => ViewSends(w, a);
    case ASetInputTarget(_) => ViewSends(w, a);
    case _ => FlagSends(w, a);
  }

  lemma FlagSends(w: World, a: Action)
    requires a.AResize? || a.ASetPointerInput? || a.ASetInputFocus? || a.ASetWindowActive? || a.AInject?
    ensures Sends(w.renderer, HostReplicationProofs.Next(w, a).renderer, SentBy(w.renderer, a))
  {
    hide KeyOf, Enqueue, Sends;
    var r, m := w.renderer, SentBy(w.renderer, a);
    if m.None? {
      NothingSent(r, r);
    } else {
      var u := match a
        case AResize(width, height) => r.(width := width, height := height)
        case ASetPointerInput(enabled) => r.(pointerInput := enabled)
        case ASetInputFocus(focused) => r.(focus := focused)
        case ASetWindowActive(active) => r.(windowActive := active)
        case _ => r;
      SendEffect(r, u, m.value, false);
    }
  }

  lemma NothingSent(r: Renderer, s: Renderer)
    requires s == r.(views := s.views)
    ensures Sends(r, s, None)
  {}

  lemma ViewSends(w: World, a: Action)
    requires Possible(w, a) && (a.ACreateOrNavigate? || a.ASetViewOrder? || a.APostWeb? || a.ASetInputTarget?)
    ensures Sends(w.renderer, HostReplicationProofs.Next(w, a).renderer, SentBy(w.renderer, a))
  {
    hide KeyOf, Enqueue, Sends, Find, Mirrors, NavigatedRecs;
    var r, m := w.renderer, SentBy(w.renderer, a);
    if m.None? {
      NothingSent(r, r);
    } else {
      match a
      case ACreateOrNavigate(id, entry, height, legacy) =>
        SendEffect(r, r.(views := NavigatedRecs(r.views, id, entry, legacy, AtLeastOne(height)), inputTarget := if r.inputTarget == "" then id else r.inputTarget),
                   m.value, false);
      case ASetInputTarget(id) => SendEffect(r, r.(inputTarget := id), m.value, false);
      case APostWeb(_, _) => SendEffect(r, r, m.value, true);
      case ASetViewOrder(id, order) =>
        var i := FindView(r, id);
        SendEffect(r, r.(views := r.views[i := r.views[i].(mirror := r.views[i].mirror.(order := order))]), m.value, false);
    }
  }

  lemma ViewportSends(w: World, a: Action)
    requires a.ASetViewport? || a.AResetPresentation?
    ensures Sends(w.renderer, HostReplicationProofs.Next(w, a).renderer, SentBy(w.renderer, a))
  {
    hide KeyOf, Enqueue, Sends;
    var r, m := w.renderer, SentBy(w.renderer, a);
    if m.None? {
      NothingSent(r, r);
    } else {
      SendEffect(r, BeginPresentation(r.(viewportWidth := m.value.width, viewportHeight := m.value.height)), m.value, false);
    }
  }

  lemma HiddenSends(r: Renderer, id: string, hidden: bool, settle: bool)
    ensures Sends(r, SetViewHidden(r, id, hidden, settle), SentBy(r, ASetViewHidden(id, hidden, settle)))
  {
    hide KeyOf, Enqueue, Find, Mirrors, NoneVisible, Sends;
    var i, m := FindView(r, id), SentBy(r, ASetViewHidden(id, hidden, settle));
    if m.Some? {
      var views := r.views[i := r.views[i].(settleColdOpen := !hidden && settle, mirror := r.views[i].mirror.(hidden := hidden))];
      SendEffect(r, Presented(r.(views := views, allHidden := NoneVisible(views)), hidden), m.value, false);
    } else {
      NothingSent(r, SetViewHidden(r, id, hidden, settle));
    }
  }

  lemma DestroySends(r: Renderer, id: string)
    ensures Sends(r, DestroyOne(r, id), SentBy(r, ADestroyView(id)))
  {
    hide KeyOf, Enqueue, Find, Mirrors, Erased, NoneVisible, Sends;
    if FindView(r, id) < |r.views| {
      var views := Erased(r.views, id);
      var target := if r.inputTarget != id then r.inputTarget else if views == [] then "" else views[0].mirror.id;
      var u := r.(views := views, inputTarget := target, allHidden := NoneVisible(views));
      SendEffect(r, if u.allHidden then u.(framesEpoch := u.epoch, framesAccept := false) else u, DestroyView(id), false);
    } else {
      NothingSent(r, r);
    }
  }

  // A call of the game adds its message at the end, coalescing or not.
  lemma SetterMoves(w: World, a: Action)
    requires Converging(w) && IsSetter(a) && Possible(w, a)
    ensures var v, m := HostReplicationProofs.Next(w, a), SentBy(w.renderer, a);
            && (forall x | x in Undelivered(v) :: x in Undelivered(w) || m == Some(x))
            && (v.renderer.lifecycle == Running ==>
                  if m.None? then Undelivered(v) == Undelivered(w) else Shorter(Undelivered(w) + [m.value], Undelivered(v)))
  {
    hide HostReplicationProofs.Next, KeyOf, Shorter, SentBy, ShapeOk, Tracks, Values;
    var v, m, out := HostReplicationProofs.Next(w, a), SentBy(w.renderer, a), w.renderer.outbound;
    SetterSends(w, a);
    SetterKeepsHost(w, a);
    if m.Some? {
      PushedIn(out, m.value, KeyOf(m.value));
      if v.renderer.lifecycle == Running {
        PushShortens(out, m.value);
        ShorterWithin(Values(w.inbound.items), Values(out.items) + [m.value], Values(v.renderer.outbound.items), []);
        assert Values(w.inbound.items) + (Values(out.items) + [m.value]) + [] == Undelivered(w) + [m.value];
        assert Values(w.inbound.items) + Values(v.renderer.outbound.items) + [] == Undelivered(v);
      }
    }
  }

  lemma SetterKeepsHost(w: World, a: Action)
    requires IsSetter(a) && Possible(w, a)
    ensures var v := HostReplicationProofs.Next(w, a); v.inbound == w.inbound && v.host == w.host && v.hostUp == w.hostUp
  {}

  lemma PushedIn(q: Queue<Message>, m: Message, key: string)
    ensures forall x | x in Values(Pushed(q, m, key).items) :: x in Values(q.items) || x == m
  {
    var after := Pushed(q, m, key).items;
    forall x | x in Values(after) ensures x in Values(q.items) || x == m {
      var i :| 0 <= i < |after| && Values(after)[i] == x;
      if i < |q.items| && after[i] == q.items[i] { assert Values(q.items)[i] == x; }
    }
  }

  // Delivery moves the oldest message from one queue to the other.
  lemma DeliverMoves(w: World, oversized: bool)
    requires Converging(w) && Possible(w, ADeliver(oversized))
    ensures var v := Deliver(w, oversized);
            && (forall x | x in Undelivered(v) :: x in Undelivered(w))
            && (v.renderer.lifecycle == Running && v.hostUp && w.hostUp ==> Shorter(Undelivered(w), Undelivered(v)))
  {
    hide KeyOf, Shorter, ShapeOk, Tracks, Values, Pushed, Undelivered, RendererOk;
    var v, x, rest := Deliver(w, oversized), w.renderer.outbound.items[0], Values(w.renderer.outbound.items[1..]);
    DeliverForm(w, oversized);
    PushedIn(w.inbound, x.value, KeyOf(x.value));
    if v.renderer.lifecycle == Running && v.hostUp && w.hostUp {
      if oversized { NeutralDrop(Values(w.inbound.items), x.value, rest); } else { MovesAcross(w.inbound, x.value, rest); }
    }
  }

  // The two queues before and after.
  lemma DeliverForm(w: World, oversized: bool)
    requires w.renderer.outbound.items != []
    ensures var v, m, rest := Deliver(w, oversized), w.renderer.outbound.items[0].value, Values(w.renderer.outbound.items[1..]);
            && Undelivered(w) == Values(w.inbound.items) + [m] + rest
            && Undelivered(v) == (if w.renderer.lifecycle != Running || !w.hostUp || oversized then Values(w.inbound.items)
                                  else Values(Pushed(w.inbound, m, KeyOf(m)).items)) + rest
  {
    hide KeyOf, Values, Pushed, PushOutcome;
    HeadOfValues(w.renderer.outbound.items);
    assert Values(w.inbound.items) + ([w.renderer.outbound.items[0].value] + Values(w.renderer.outbound.items[1..]))
        == Values(w.inbound.items) + [w.renderer.outbound.items[0].value] + Values(w.renderer.outbound.items[1..]);
  }

  lemma MovesAcross(q: Queue<Message>, m: Message, rest: seq<Message>)
    requires Keyed(q, KeyOf) && Accepted(PushOutcome(q, KeyOf(m)))
    ensures Shorter(Values(q.items) + [m] + rest, Values(Pushed(q, m, KeyOf(m)).items) + rest)
  {
    hide KeyOf, Shorter, Values, Pushed, PushOutcome;
    var before, after := Values(q.items), Values(Pushed(q, m, KeyOf(m)).items);
    PushShortens(q, m);
    ShorterWithin([], before + [m], after, rest);
    assert [] + (before + [m]) + rest == before + [m] + rest && [] + after + rest == after + rest;
  }

  lemma HeadOfValues(items: seq<Item<Message>>)
    requires items != []
    ensures Values(items) == [items[0].value] + Values(items[1..])
  {}

  lemma NeutralDrop(before: seq<Message>, x: Message, rest: seq<Message>)
    requires x.PostWeb? || x.Inject?
    ensures Shorter(before + [x] + rest, before + rest)
  {
    var ms := before + [x] + rest;
    assert ms[|before|] == x && Droppable(ms, |before|);
    assert Dropped(ms, |before|) == before + rest;
  }

  // ---- the invariant ------------------------------------------------------------------------------------------

  predicate Within(m: Message, epoch: nat) {
    (m.Viewport? ==> m.epoch <= epoch) && (m.SetHidden? ==> m.shownEpoch <= epoch)
  }

  // No epoch is ahead of the game's.
  predicate EpochsOk(s: Stage) {
    && s.screen.epoch <= s.w.renderer.epoch
    && (forall v | v in s.screen.awaiting :: s.screen.awaiting[v] <= s.w.renderer.epoch)
    && (forall m | m in Undelivered(s.w) :: Within(m, s.w.renderer.epoch))
  }

  predicate Shown(views: seq<ViewRec>, view: string) {
    exists v | v in views :: v.mirror.id == view && !v.mirror.hidden
  }

  // The last word about the view is its show under the current epoch, undelivered or waiting for its paint.
  predicate Carrying(ms: seq<Message>, awaiting: map<string, nat>, view: string, epoch: nat) {
    if LastSay(ms, view).Some? then Offers(LastSay(ms, view).value, epoch)
    else view in awaiting && awaiting[view] == epoch
  }

  predicate Promised(screen: Screen, ms: seq<Message>, views: seq<ViewRec>, began: Option<string>, epoch: nat) {
    || screen.epoch == epoch
    || (if began.None? then exists m | m in ms :: m.Viewport? && m.epoch == epoch
        else Shown(views, began.value) ==> Carrying(ms, screen.awaiting, began.value, epoch))
  }

  ghost predicate StageOk(s: Stage) {
    && Converging(s.w) && EpochsOk(s)
    && (Connected(s) ==>
          && Known(Ids(s.w.host.views), Undelivered(s.w))
          && Promised(s.screen, Undelivered(s.w), s.w.renderer.views, s.began, s.w.renderer.epoch))
  }

  lemma FoldsToMirror(w: World)
    requires Converging(w) && w.renderer.lifecycle == Running && w.hostUp
    ensures Fold(Apply, w.host, Undelivered(w)) == Mirror(w.renderer)
    ensures IdsAll(Ids(w.host.views), Undelivered(w)) == Ids(Mirrors(w.renderer.views))
  {
    hide RendererOk, KeyOf, Apply, IdsAll, Ids;
    FoldAppend(Apply, w.host, Values(w.inbound.items), Values(w.renderer.outbound.items));
    IdsFold(w.host, Undelivered(w));
  }

  // ---- calls of the game ----------------------------------------------------------------------------------------

  lemma SentWithin(r: Renderer, a: Action)
    requires SentBy(r, a).Some?
    ensures var m := SentBy(r, a).value; var epoch := if Begins(m) then r.epoch + 1 else r.epoch;
            && Within(m, epoch) && (Begins(m) ==> Offers(m, epoch))
            && (m.SetHidden? ==> a.ASetViewHidden? && m.view == a.view && m.hidden == a.hidden && FindView(r, a.view) < |r.views|)
            && (m.Viewport? <==> a.ASetViewport? || a.AResetPresentation?)
            && (m.DestroyView? ==> a.ADestroyView? && m.destroyed == a.destroyed)
  {
    hide Find, Mirrors;
  }

  lemma ShownIn(views: seq<ViewRec>, i: nat, v: ViewRec, view: string)
    requires i < |views| && v.mirror.id == views[i].mirror.id && (v.mirror.hidden || !views[i].mirror.hidden)
    ensures Shown(views[i := v], view) ==> Shown(views, view)
  {
    if Shown(views[i := v], view) {
      var u :| u in views[i := v] && u.mirror.id == view && !u.mirror.hidden;
      if u == v { assert views[i] in views; } else { assert u in views; }
    }
  }

  lemma {:induction false} NotShown(views: seq<ViewRec>, i: nat, v: ViewRec, view: string)
    requires UniqueIds(Mirrors(views)) && i < |views| && v.mirror.id == views[i].mirror.id && v.mirror.hidden
    ensures Shown(views[i := v], view) ==> view != v.mirror.id
  {
    if Shown(views[i := v], view) {
      var u :| u in views[i := v] && u.mirror.id == view && !u.mirror.hidden;
      var j :| 0 <= j < |views| && views[i := v][j] == u;
      if j != i { assert Mirrors(views)[j].id != Mirrors(views)[i].id; }
    }
  }

  // The view records after a call of the game.
  function ViewsAfter(r: Renderer, a: Action): seq<ViewRec> {
    match a
    case ACreateOrNavigate(id, entry, height, legacy) => NavigatedRecs(r.views, id, entry, legacy, AtLeastOne(height))
    case ASetViewHidden(id, hidden, settle) =>
      var i := FindView(r, id);
      if i == |r.views| then r.views else
      var settled := r.views[i].(settleColdOpen := !hidden && settle);
      if SentBy(r, a).None? then r.views[i := settled] else r.views[i := settled.(mirror := settled.mirror.(hidden := hidden))]
    case ASetViewOrder(id, order) =>
      var i := FindView(r, id);
      if i == |r.views| then r.views else r.views[i := r.views[i].(mirror := r.views[i].mirror.(order := order))]
    case ADestroyView(id) => if FindView(r, id) == |r.views| then r.views else Erased(r.views, id)
    case _ => r.views
  }

  lemma EnqueueViews(r: Renderer, m: Message, early: bool)
    ensures Enqueue(r, m, early).views == r.views
  {}

  lemma HiddenViews(r: Renderer, id: string, hidden: bool, settle: bool)
    ensures SetViewHidden(r, id, hidden, settle).views == ViewsAfter(r, ASetViewHidden(id, hidden, settle))
  {
    hide KeyOf, Enqueue, Find, Mirrors, NoneVisible;
    var i := FindView(r, id);
    if SentBy(r, ASetViewHidden(id, hidden, settle)).Some? {
      var views := r.views[i := r.views[i].(settleColdOpen := !hidden && settle, mirror := r.views[i].mirror.(hidden := hidden))];
      var p := Presented(r.(views := views, allHidden := NoneVisible(views)), hidden);
      EnqueueViews(p, SetHidden(id, hidden, p.epoch, !hidden && settle), false);
    }
  }

  lemma OrderViews(r: Renderer, id: string, order: int)
    ensures SetViewOrder(r, id, order).views == ViewsAfter(r, ASetViewOrder(id, order))
  {
    hide KeyOf, Enqueue, Find, Mirrors;
    var i := FindView(r, id);
    if i < |r.views| {
      var v := r.views[i].(mirror := r.views[i].mirror.(order := order));
      EnqueueViews(r.(views := r.views[i := v]), SetOrder(id, order), false);
      assert r.views[i].mirror.order == order ==> v == r.views[i];
    }
  }

  lemma ViewsOf(w: World, a: Action)
    requires IsSetter(a) && Possible(w, a)
    ensures HostReplicationProofs.Next(w, a).renderer.views == ViewsAfter(w.renderer, a)
  {
    hide Enqueue, Find, Mirrors, NoneVisible, Erased, NavigatedRecs, SetViewHidden, SetViewOrder, SentBy, DestroyOne, CreateOrNavigateView;
    match a
    case ASetViewHidden(id, hidden, settle) => HiddenViews(w.renderer, id, hidden, settle);
    case ASetViewOrder(id, order) => OrderViews(w.renderer, id, order);
    case ADestroyView(id) => DestroyViews(w.renderer, id);
    case ACreateOrNavigate(id, entry, height, legacy) => NavigateViews(w.renderer, id, entry, height, legacy);
    case _ => OtherViews(w, a);
  }

  lemma DestroyViews(r: Renderer, id: string)
    ensures DestroyOne(r, id).views == ViewsAfter(r, ADestroyView(id))
  {
    hide KeyOf, Find, Mirrors, NoneVisible, Erased;
  }

  lemma NavigateViews(r: Renderer, id: string, entry: string, height: nat, legacy: bool)
    ensures CreateOrNavigateView(r, id, entry, height, legacy).views == ViewsAfter(r, ACreateOrNavigate(id, entry, height, legacy))
  {
    hide KeyOf, NavigatedRecs;
  }

  lemma OtherViews(w: World, a: Action)
    requires IsSetter(a) && Possible(w, a) && !a.ASetViewHidden? && !a.ASetViewOrder? && !a.ADestroyView? && !a.ACreateOrNavigate?
    ensures HostReplicationProofs.Next(w, a).renderer.views == w.renderer.views
  {
    hide KeyOf, Find, Mirrors, Enqueue;
    forall r: Renderer, m: Message, early: bool ensures Enqueue(r, m, early).views == r.views { EnqueueViews(r, m, early); }
  }

  // Without a new epoch no call shows a view, and none that hides or destroys a view leaves it shown.
  lemma ShownAfter(w: World, a: Action, view: string)
    requires RendererOk(w.renderer) && IsSetter(a) && Possible(w, a) && (SentBy(w.renderer, a).Some? ==> !Begins(SentBy(w.renderer, a).value))
    requires Shown(HostReplicationProofs.Next(w, a).renderer.views, view)
    ensures Shown(w.renderer.views, view)
    ensures SentBy(w.renderer, a).Some? ==> !Speaks(SentBy(w.renderer, a).value, view)
  {
    hide Find, Mirrors, Erased, NavigatedRecs, Shown, QueueOk, SizesOk, PresentationOk, UniqueIds, HostReplicationProofs.Next;
    var r := w.renderer;
    ViewsOf(w, a);
    match a
    case ASetViewHidden(id, hidden, settle) =>
      var i := FindView(r, id);
      if i < |r.views| {
        var v := r.views[i].(settleColdOpen := !hidden && settle);
        if SentBy(r, a).Some? {
          ShownIn(r.views, i, v.(mirror := v.mirror.(hidden := true)), view);
          NotShown(r.views, i, v.(mirror := v.mirror.(hidden := true)), view);
        } else {
          ShownIn(r.views, i, v, view);
        }
      }
    case ASetViewOrder(id, order) =>
      var i := FindView(r, id);
      if i < |r.views| { ShownIn(r.views, i, r.views[i].(mirror := r.views[i].mirror.(order := order)), view); }
    case ADestroyView(id) =>
      if FindView(r, id) < |r.views| {
        ErasedMirrors(r.views, id);
        NotShownErased(r.views, Erased(r.views, id), id, view);
      }
    case ACreateOrNavigate(id, entry, height, legacy) => NavigatedShown(r.views, id, entry, legacy, AtLeastOne(height), view);
    case _ =>
  }

  lemma NotShownErased(views: seq<ViewRec>, after: seq<ViewRec>, id: string, view: string)
    requires forall v | v in after :: v in views && v.mirror.id != id
    ensures Shown(after, view) ==> Shown(views, view) && view != id
  {}

  lemma NavigatedShown(views: seq<ViewRec>, id: string, entry: string, legacy: bool, height: nat, view: string)
    ensures Shown(NavigatedRecs(views, id, entry, legacy, height), view) ==> Shown(views, view)
  {
    hide Find, Mirrors;
    var i := Find(Mirrors(views), id);
    var added := ViewRec(HostView(id, "", false, 1, true, 0), false);
    var all := if i < |views| then views else views + [added];
    ShownIn(all, i, all[i].(mirror := all[i].mirror.(entry := entry, legacy := legacy, logicalHeight := height)), view);
    if Shown(all, view) { var u :| u in all && u.mirror.id == view && !u.mirror.hidden; assert u in views; }
  }

  lemma SetterKeepsStage(s: Stage, a: Action, direct: bool)
    requires StageOk(s) && IsSetter(a) && Possible(s.w, a)
    ensures StageOk(Go(s, Net(a, direct)))
  {
    hide HostReplicationProofs.Next, Converging, Known, Promised, SentBy, Undelivered, IdsAll, Ids, KeyOf, Sends;
    var t, m := Go(s, Net(a, direct)), SentBy(s.w.renderer, a);
    NextKeeps(s.w, a);
    SetterMoves(s.w, a);
    SetterSends(s.w, a);
    SentFields(s.w.renderer, t.w.renderer, m);
    SetterKeepsHost(s.w, a);
    if m.Some? { SentWithin(s.w.renderer, a); }
    if Connected(t) {
      if m.Some? { SetterKnown(s, a, m.value, Undelivered(t.w)); }
      SetterPromised(s, a, direct);
    }
  }

  lemma SentFields(r: Renderer, s: Renderer, m: Option<Message>)
    requires Sends(r, s, m)
    ensures s.epoch == (if m.Some? && Begins(m.value) then r.epoch + 1 else r.epoch)
    ensures s.lifecycle == Running ==> r.lifecycle == Running
  {
    hide KeyOf;
  }

  lemma SetterKnown(s: Stage, a: Action, m: Message, after: seq<Message>)
    requires StageOk(s) && Connected(s) && SentBy(s.w.renderer, a) == Some(m) && Shorter(Undelivered(s.w) + [m], after)
    ensures Known(Ids(s.w.host.views), after)
  {
    hide SentBy, Undelivered, IdsAll, Ids, Known, KeyOf, Shorter, Promised;
    var ids, ms := Ids(s.w.host.views), Undelivered(s.w);
    FoldsToMirror(s.w);
    SentWithin(s.w.renderer, a);
    if m.SetHidden? { FoundExactly(Mirrors(s.w.renderer.views), m.view); }
    OneMessage(IdsAll(ids, ms), m);
    KnownAppend(ids, ms, [m]);
    ShorterKeepsKnown(ids, ms + [m], after);
  }

  lemma SetterPromised(s: Stage, a: Action, direct: bool)
    requires StageOk(s) && IsSetter(a) && Possible(s.w, a) && Connected(s) && Connected(Go(s, Net(a, direct)))
    ensures var t := Go(s, Net(a, direct));
            Promised(t.screen, Undelivered(t.w), t.w.renderer.views, t.began, t.w.renderer.epoch)
  {
    hide HostReplicationProofs.Next, Known, SentBy, Undelivered, IdsAll, Ids, KeyOf, Sends, Shorter, LastSay, Shown;
    var t, m := Go(s, Net(a, direct)), SentBy(s.w.renderer, a);
    var ms, after := Undelivered(s.w), Undelivered(t.w);
    SetterMoves(s.w, a);
    SetterSends(s.w, a);
    SentFields(s.w.renderer, t.w.renderer, m);
    if m.None? {
      if s.began.Some? && Shown(t.w.renderer.views, s.began.value) { ShownAfter(s.w, a, s.began.value); }
    } else {
      SentWithin(s.w.renderer, a);
      ShorterIn(ms + [m.value], after);
      assert m.value in ms + [m.value];
      if t.began.Some? {
        var view := t.began.value;
        LastSayAppend(ms, [m.value], view);
        LastSayOne(m.value, view);
        ShorterKeepsLastSay(ms + [m.value], after, view);
        if !Begins(m.value) && Shown(t.w.renderer.views, view) { ShownAfter(s.w, a, view); }
      }
    }
  }

  // ---- delivery and handling ------------------------------------------------------------------------------------

  lemma PromiseShorter(screen: Screen, ms: seq<Message>, after: seq<Message>, views: seq<ViewRec>, began: Option<string>, epoch: nat)
    requires Shorter(ms, after) && Promised(screen, ms, views, began, epoch)
    ensures Promised(screen, after, views, began, epoch)
  {
    hide Shorter, LastSay, Shown;
    ShorterIn(ms, after);
    if began.Some? { ShorterKeepsLastSay(ms, after, began.value); }
  }

  lemma DeliverKeepsStage(s: Stage, oversized: bool, direct: bool)
    requires StageOk(s) && Possible(s.w, ADeliver(oversized))
    ensures StageOk(Go(s, Net(ADeliver(oversized), direct)))
  {
    hide Converging, Known, Promised, Undelivered, Ids, KeyOf, Shorter;
    var t := Go(s, Net(ADeliver(oversized), direct));
    NextKeeps(s.w, ADeliver(oversized));
    DeliverMoves(s.w, oversized);
    DeliverFields(s.w, oversized);
    if Connected(t) {
      PromiseShorter(s.screen, Undelivered(s.w), Undelivered(t.w), s.w.renderer.views, s.began, s.w.renderer.epoch);
      ShorterKeepsKnown(Ids(s.w.host.views), Undelivered(s.w), Undelivered(t.w));
    }
  }

  lemma DeliverFields(w: World, oversized: bool)
    requires Possible(w, ADeliver(oversized))
    ensures var v := Deliver(w, oversized);
            && v.renderer == w.renderer.(outbound := v.renderer.outbound, lifecycle := v.renderer.lifecycle) && v.host == w.host
            && (v.hostUp ==> w.hostUp) && (v.renderer.lifecycle == Running ==> w.renderer.lifecycle == Running)
  {
    hide KeyOf;
  }

  lemma HandledEpochs(screen: Screen, h: Host, m: Message, direct: bool, epoch: nat)
    requires screen.epoch <= epoch && (forall v | v in screen.awaiting :: screen.awaiting[v] <= epoch) && Within(m, epoch)
    ensures var t := Handled(screen, h, m, direct); t.epoch <= epoch && forall v | v in t.awaiting :: t.awaiting[v] <= epoch
  {
    hide Find;
  }

  lemma PromiseHandled(screen: Screen, h: Host, m: Message, rest: seq<Message>, views: seq<ViewRec>, began: Option<string>, epoch: nat, direct: bool)
    requires Promised(screen, [m] + rest, views, began, epoch) && (m.SetHidden? ==> Find(h.views, m.view) < |h.views|)
    requires screen.epoch <= epoch && Within(m, epoch)
    ensures Promised(Handled(screen, h, m, direct), rest, views, began, epoch)
  {
    hide LastSay, Shown, Find;
    if screen.epoch != epoch && began.Some? {
      LastSayAppend([m], rest, began.value);
      LastSayOne(m, began.value);
    }
  }

  lemma HandleKeepsStage(s: Stage, direct: bool)
    requires StageOk(s)
    ensures StageOk(Go(s, Net(AHandle, direct)))
  {
    hide Converging, Known, Promised, Ids, KeyOf, Handled, Apply, Values;
    var t := Go(s, Net(AHandle, direct));
    NextKeeps(s.w, AHandle);
    if s.w.inbound.items != [] {
      var m, rest := s.w.inbound.items[0].value, Undelivered(t.w);
      HeadOfValues(s.w.inbound.items);
      assert Undelivered(s.w) == [m] + rest;
      assert m in Undelivered(s.w) && forall x | x in rest :: x in Undelivered(s.w);
      HandledEpochs(s.screen, s.w.host, m, direct, s.w.renderer.epoch);
      if Connected(s) {
        KnownAppend(Ids(s.w.host.views), [m], rest);
        OneMessage(Ids(s.w.host.views), m);
        IdsApply(s.w.host, m);
        if m.SetHidden? { FoundExactly(s.w.host.views, m.view); }
        PromiseHandled(s.screen, s.w.host, m, rest, s.w.renderer.views, s.began, s.w.renderer.epoch, direct);
      }
    }
  }

  lemma RevealKeepsStage(s: Stage, view: string)
    requires StageOk(s) && view in s.screen.awaiting
    ensures StageOk(Go(s, Reveal(view)))
  {
    hide Converging, Known, Undelivered, LastSay, Shown;
  }

  // ---- connection --------------------------------------------------------------------------------------------------

  lemma {:induction false} SnapshotKnown(ids: set<string>, views: seq<ViewRec>, epoch: nat)
    ensures Known(ids, Values(ViewSnapshot(views, epoch)))
    ensures forall m | m in Values(ViewSnapshot(views, epoch)) :: Within(m, epoch)
    decreases views
  {
    hide Known, Values, IdsAll;
    if views == [] {
      KnownNothing(ids, views, epoch);
    } else {
      var v, rest := views[0].mirror, Values(ViewSnapshot(views[1..], epoch));
      var m0, m1, m2 := Navigate(v.id, v.entry, v.logicalHeight, v.legacy), SetHidden(v.id, v.hidden, epoch, views[0].settleColdOpen), SetOrder(v.id, v.order);
      SnapshotValues(views, epoch);
      SnapshotKnown(ids + {v.id}, views[1..], epoch);
      OneMessage(ids, m0);
      OneMessage(ids + {v.id}, m1);
      OneMessage(ids + {v.id}, m2);
      KnownAppend(ids, [m0], [m1] + ([m2] + rest));
      KnownAppend(ids + {v.id}, [m1], [m2] + rest);
      KnownAppend(ids + {v.id}, [m2], rest);
    }
  }

  lemma KnownNothing(ids: set<string>, views: seq<ViewRec>, epoch: nat)
    requires views == []
    ensures Values(ViewSnapshot(views, epoch)) == [] && Known(ids, [])
  {}

  // Messages that neither show nor hide need no view.
  lemma QuietKnown(ids: set<string>, ms: seq<Message>)
    requires forall m | m in ms :: !m.SetHidden?
    ensures Known(ids, ms)
  {}

  lemma BootstrapKnown(r: Renderer)
    ensures var ms := Values(Bootstrap(r));
            && Known({}, ms) && (forall m | m in ms :: Within(m, r.epoch)) && (exists m | m in ms :: m.Viewport? && m.epoch == r.epoch)
  {
    hide Known, IdsAll, Values, Bootstrap, ViewSnapshot;
    BootstrapValues(r);
    var first := [Init(r.width, r.height), Viewport(r.viewportWidth, r.viewportHeight, r.epoch), PointerInput(r.pointerInput), WindowActive(r.windowActive)];
    var views := Values(ViewSnapshot(r.views, r.epoch));
    var last := (if r.inputTarget == "" then [] else [SetInputTarget(r.inputTarget)]) + [Focus(r.focus)];
    assert Values(Bootstrap(r)) == first + (views + last);
    QuietKnown({}, first);
    SnapshotKnown(IdsAll({}, first), r.views, r.epoch);
    QuietKnown(IdsAll(IdsAll({}, first), views), last);
    KnownAppend({}, first, views + last);
    KnownAppend(IdsAll({}, first), views, last);
    assert first[1] in first;
  }

  lemma ConnectKeepsStage(s: Stage, process: Host, direct: bool)
    requires StageOk(s) && Possible(s.w, AConnect(process))
    ensures StageOk(Go(s, Net(AConnect(process), direct)))
  {
    hide Converging, Known, Bootstrap, Values, Ids, IdsAll, Undelivered, HostReplicationProofs.Next, Within;
    var t := Go(s, Net(AConnect(process), direct));
    var header, posts := Values(Bootstrap(s.w.renderer)), Values(s.w.renderer.outbound.items);
    NextKeeps(s.w, AConnect(process));
    ConnectForm(s.w, process);
    BootstrapKnown(s.w.renderer);
    PostsWereUndelivered(s.w);
    assert forall m | m in Undelivered(t.w) :: m in header || m in posts;
    if Connected(t) {
      PostsAreQuiet(s.w);
      QuietKnown(IdsAll({}, header), posts);
      KnownAppend({}, header, posts);
      NoIds(process.views);
    }
  }

  lemma PostsWereUndelivered(w: World)
    ensures forall m | m in Values(w.renderer.outbound.items) :: m in Undelivered(w)
  {
    hide Values;
  }

  // The snapshot goes in front of what was queued before the connection, or the connection is not made.
  lemma ConnectForm(w: World, process: Host)
    requires Possible(w, AConnect(process))
    ensures var r, v := w.renderer, HostReplicationProofs.Next(w, AConnect(process));
            && v.host == process && v.renderer.epoch == r.epoch && process.views == []
            && (v.renderer.lifecycle == Running ==>
                  r.lifecycle == Starting && !r.outbound.closed && Undelivered(v) == Values(Bootstrap(r)) + Values(r.outbound.items))
            && forall m | m in Undelivered(v) :: m in Values(Bootstrap(r)) || m in Values(r.outbound.items)
  {
    hide Bootstrap, Values;
    var r := w.renderer;
    NoMessages<Message>();
    NothingBefore(Values(r.outbound.items), []);
    assert [] + Values(r.outbound.items) == Values(r.outbound.items);
    if CanPrepend(r.outbound, Bootstrap(r)) {
      ValuesAppend(Bootstrap(r), r.outbound.items);
      assert [] + Values(Bootstrap(r) + r.outbound.items) == Values(Bootstrap(r) + r.outbound.items);
    }
  }

  lemma NoMessages<T>()
    ensures Values<T>([]) == []
  {}

  lemma NoIds(views: seq<HostView>)
    requires views == []
    ensures Ids(views) == {}
  {}

  lemma PostsAreQuiet(w: World)
    requires Converging(w) && w.renderer.lifecycle == Starting && !w.renderer.outbound.closed
    ensures forall m | m in Values(w.renderer.outbound.items) :: !m.SetHidden?
  {
    hide ShapeOk, Tracks, KeyOf;
  }

  // ---- every step ---------------------------------------------------------------------------------------------------

  lemma EndKeepsStage(s: Stage, a: Action, direct: bool)
    requires StageOk(s) && (a.AStart? || a.ALost? || a.AStop? || a.ARestart?)
    ensures StageOk(Go(s, Net(a, direct)))
  {
    hide Converging, Known, Promised, Ids, Values, HostReplicationProofs.Next, Within;
    NextKeeps(s.w, a);
    EndMoves(s.w, a);
    NoMessages<Message>();
  }

  // Starting, losing, stopping and restarting leave the renderer as it is or not running, and send nothing.
  lemma EndMoves(w: World, a: Action)
    requires a.AStart? || a.ALost? || a.AStop? || a.ARestart?
    ensures var v := HostReplicationProofs.Next(w, a);
            && v == w.(renderer := v.renderer) && v.renderer.epoch == w.renderer.epoch
            && (v.renderer.outbound.items == w.renderer.outbound.items || v.renderer.outbound.items == [])
            && (v.renderer == w.renderer || v.renderer.lifecycle != Running)
  {}

  lemma StepKeepsStage(s: Stage, step: Step)
    requires StageOk(s) && Ready(s, step)
    ensures StageOk(Go(s, step))
  {
    hide StageOk, Go;
    match step
    case Reveal(view) => RevealKeepsStage(s, view);
    case Net(a, direct) =>
      if IsSetter(a) {
        SetterKeepsStage(s, a, direct);
      } else {
        match a
        case AConnect(process) => ConnectKeepsStage(s, process, direct);
        case ADeliver(oversized) => DeliverKeepsStage(s, oversized, direct);
        case AHandle => HandleKeepsStage(s, direct);
        case _ => EndKeepsStage(s, a, direct);
      }
  }

  // ---- runs -----------------------------------------------------------------------------------------------------------

  predicate Leads(s: Stage, step: Step, t: Stage) {
    Ready(s, step) && t == Go(s, step)
  }

  ghost predicate Execution(stages: seq<Stage>, steps: seq<Step>) {
    && |stages| == |steps| + 1
    && (exists width, height :: stages[0].w.renderer == Fresh(width, height))
    && stages[0].w.inbound == Queue(MAX_GAME_MESSAGES, [], false) && !stages[0].w.hostUp && stages[0].screen == Screen(0, map[])
    && forall i {:trigger steps[i]} | 0 <= i < |steps| :: Leads(stages[i], steps[i], stages[i + 1])
  }

  lemma {:induction false} ExecutionKeepsStage(stages: seq<Stage>, steps: seq<Step>, n: nat)
    requires Execution(stages, steps) && n <= |steps|
    ensures StageOk(stages[n]) && stages[n].w.inbound.capacity == MAX_GAME_MESSAGES
  {
    hide StageOk, Go;
    if n == 0 {
      var width, height :| stages[0].w.renderer == Fresh(width, height);
      FirstStage(stages[0], width, height);
    } else {
      ExecutionKeepsStage(stages, steps, n - 1);
      assert Leads(stages[n - 1], steps[n - 1], stages[n]);
      StepKeepsStage(stages[n - 1], steps[n - 1]);
      CapacityStays(stages[n - 1], steps[n - 1]);
    }
  }

  lemma CapacityStays(s: Stage, step: Step)
    requires Ready(s, step)
    ensures Go(s, step).w.inbound.capacity == if step.Net? && step.action.AConnect? then MAX_GAME_MESSAGES else s.w.inbound.capacity
  {
    hide KeyOf, PushOutcome;
    if step.Net? && IsSetter(step.action) {
      SetterKeepsHost(s.w, step.action);
    }
  }

  lemma FirstStage(s: Stage, width: nat, height: nat)
    requires s.w.renderer == Fresh(width, height) && s.w.inbound == Queue(MAX_GAME_MESSAGES, [], false) && !s.w.hostUp && s.screen == Screen(0, map[])
    ensures StageOk(s)
  {
    hide Converging, Known, Promised;
    StartConverges(s.w, width, height);
  }

  // Once both queues are empty and no paint is awaited, the host renders under the game's epoch, unless the
  // view whose show began that epoch has been hidden or destroyed since.
  lemma ShownPresentationArrives(stages: seq<Stage>, steps: seq<Step>, n: nat)
    requires Execution(stages, steps) && n <= |steps| && Connected(stages[n])
    requires stages[n].w.inbound.items == [] && stages[n].w.renderer.outbound.items == [] && stages[n].screen.awaiting == map[]
    requires stages[n].began.None? || Shown(stages[n].w.renderer.views, stages[n].began.value)
    ensures stages[n].screen.epoch == stages[n].w.renderer.epoch
  {
    hide Converging, Known, Shown;
    ExecutionKeepsStage(stages, steps, n);
    NoMessages<Message>();
    if stages[n].began.Some? { assert LastSay([], stages[n].began.value) == None; }
  }

  // ---- when the current epoch is never presented --------------------------------------------------------------------

  // The steps are possible one after the other, none makes a new connection, and they end under this epoch.
  predicate Reaches(s: Stage, steps: seq<Step>, epoch: nat)
    decreases |steps|
  {
    if steps == [] then s.screen.epoch == epoch
    else Ready(s, steps[0]) && !(steps[0].Net? && steps[0].action.AConnect?) && Reaches(Go(s, steps[0]), steps[1..], epoch)
  }

  // The epoch was passed over: nothing renders under it, leads to it or will announce it again.
  predicate Dead(s: Stage, epoch: nat) {
    0 < epoch <= s.w.renderer.epoch && !Alive(s, epoch)
  }

  lemma DeadAfterCall(s: Stage, a: Action, direct: bool, epoch: nat)
    requires StageOk(s) && Dead(s, epoch) && IsSetter(a) && Possible(s.w, a)
    ensures Dead(Go(s, Net(a, direct)), epoch)
  {
    hide HostReplicationProofs.Next, Converging, Known, Promised, SentBy, Undelivered, Sends, Shorter;
    SetterMoves(s.w, a);
    SetterSends(s.w, a);
    SentFields(s.w.renderer, HostReplicationProofs.Next(s.w, a).renderer, SentBy(s.w.renderer, a));
    if SentBy(s.w.renderer, a).Some? { SentWithin(s.w.renderer, a); }
  }

  lemma DeadAfterHandling(s: Stage, direct: bool, epoch: nat)
    requires StageOk(s) && Dead(s, epoch)
    ensures Dead(Go(s, Net(AHandle, direct)), epoch)
  {
    hide Converging, Known, Promised, Apply, Values, Find;
    if s.w.inbound.items != [] {
      HeadOfValues(s.w.inbound.items);
      var t := Go(s, Net(AHandle, direct));
      assert Undelivered(s.w) == [s.w.inbound.items[0].value] + Undelivered(t.w);
      assert s.w.inbound.items[0].value in Undelivered(s.w) && forall m | m in Undelivered(t.w) :: m in Undelivered(s.w);
    }
  }

  lemma DeadStays(s: Stage, step: Step, epoch: nat)
    requires StageOk(s) && Dead(s, epoch) && Ready(s, step) && !(step.Net? && step.action.AConnect?)
    ensures Dead(Go(s, step), epoch)
  {
    hide Converging, Known, Promised, Undelivered, HostReplicationProofs.Next;
    match step
    case Reveal(_) =>
    case Net(a, direct) =>
      if IsSetter(a) {
        DeadAfterCall(s, a, direct, epoch);
      } else {
        match a
        case AHandle => DeadAfterHandling(s, direct, epoch);
        case ADeliver(oversized) => DeliverMoves(s.w, oversized); DeliverFields(s.w, oversized); NextDelivers(s.w, oversized);
        case _ => EndsFields(s.w, a);
      }
  }

  lemma NextDelivers(w: World, oversized: bool)
    requires Possible(w, ADeliver(oversized))
    ensures HostReplicationProofs.Next(w, ADeliver(oversized)) == Deliver(w, oversized)
  {}

  lemma EndsFields(w: World, a: Action)
    requires a.AStart? || a.ALost? || a.AStop? || a.ARestart?
    ensures var v := HostReplicationProofs.Next(w, a);
            v.renderer.epoch == w.renderer.epoch && forall m | m in Undelivered(v) :: m in Undelivered(w)
  {
    hide Values;
    NoMessages<Message>();
  }

  lemma {:induction false} DeadForever(s: Stage, steps: seq<Step>, epoch: nat)
    requires StageOk(s) && Dead(s, epoch)
    ensures !Reaches(s, steps, epoch)
    decreases |steps|
  {
    hide StageOk, Go, Carried;
    if steps != [] && Ready(s, steps[0]) && !(steps[0].Net? && steps[0].action.AConnect?) {
      DeadStays(s, steps[0], epoch);
      StepKeepsStage(s, steps[0]);
      DeadForever(Go(s, steps[0]), steps[1..], epoch);
    }
  }

  // Handling an offer of the game's epoch, with nothing left to paint, presents it.
  lemma OfferPresents(s: Stage)
    requires StageOk(s) && Connected(s) && s.w.inbound.items != [] && Offers(s.w.inbound.items[0].value, s.w.renderer.epoch)
    ensures Go(s, Net(AHandle, true)).screen.epoch == s.w.renderer.epoch
  {
    hide Converging, Promised, Apply, Values, Find, Known, Ids;
    var m, rest := s.w.inbound.items[0].value, Undelivered(Go(s, Net(AHandle, true)).w);
    HeadOfValues(s.w.inbound.items);
    assert Undelivered(s.w) == [m] + rest;
    KnownAppend(Ids(s.w.host.views), [m], rest);
    OneMessage(Ids(s.w.host.views), m);
    if m.SetHidden? { FoundExactly(s.w.host.views, m.view); }
  }

  // Delivery to an empty queue moves one message as it is.
  lemma DeliverOne(s: Stage)
    requires Connected(s) && Converging(s.w) && s.w.inbound.items == [] && s.w.inbound.capacity > 0 && s.w.renderer.outbound.items != []
    ensures var t := Go(s, Net(ADeliver(false), true));
            && Connected(t) && Undelivered(t.w) == Undelivered(s.w) && t.screen == s.screen && t.w.renderer.epoch == s.w.renderer.epoch
            && |t.w.inbound.items| == 1 && |t.w.renderer.outbound.items| == |s.w.renderer.outbound.items| - 1
  {
    hide KeyOf, RendererOk, Tracks, Values, Pushed, PushOutcome, Undelivered;
    var x, rest := s.w.renderer.outbound.items[0].value, Values(s.w.renderer.outbound.items[1..]);
    DeliverForm(s.w, false);
    OnlyQueued(s.w.inbound, x, KeyOf(x));
    NoMessages<Message>();
    NothingBefore([x], rest);
  }

  // An empty open queue takes a message as its only one.
  lemma OnlyQueued(q: Queue<Message>, m: Message, key: string)
    requires q.items == [] && !q.closed && q.capacity > 0
    ensures PushOutcome(q, key) == Queued && |Pushed(q, m, key).items| == 1 && Values(Pushed(q, m, key).items) == [m]
  {
    assert Pushed(q, m, key).items == [Item(m, key)];
    HeadOfValues([Item(m, key)]);
    NoMessages<Message>();
    assert [Item(m, key)][1..] == [] && [m] + [] == [m];
  }

  lemma NothingBefore(a: seq<Message>, b: seq<Message>)
    ensures [] + a + b == a + b
  {}

  // While the epoch is alive the host can still come to present it, without anything more from the game.
  lemma {:induction false} CanPresent(s: Stage) returns (steps: seq<Step>)
    requires StageOk(s) && Connected(s) && s.w.inbound.capacity > 0 && Alive(s, s.w.renderer.epoch)
    ensures Reaches(s, steps, s.w.renderer.epoch)
    decreases |s.w.inbound.items| + 2 * |s.w.renderer.outbound.items|
  {
    hide StageOk, Go, Undelivered;
    var epoch := s.w.renderer.epoch;
    if s.screen.epoch == epoch {
      steps := [];
    } else if v :| v in s.screen.awaiting && s.screen.awaiting[v] == epoch {
      RevealPresents(s, v);
      steps := [Reveal(v)];
      OneStep(s, Reveal(v), epoch);
    } else {
      var first: Step;
      if s.w.inbound.items == [] {
        first := Net(ADeliver(false), true);
        SomethingToDeliver(s);
        assert Converging(s.w) by { OkConverges(s); }
        DeliverOne(s);
      } else {
        first := Net(AHandle, true);
        HandleMoves(s);
        if Offers(s.w.inbound.items[0].value, epoch) { OfferPresents(s); }
      }
      StepKeepsStage(s, first);
      CapacityStays(s, first);
      var rest := CanPresent(Go(s, first));
      steps := [first] + rest;
      assert steps[1..] == rest;
    }
  }

  lemma OkConverges(s: Stage)
    requires StageOk(s)
    ensures Converging(s.w)
  {}

  lemma RevealPresents(s: Stage, view: string)
    requires StageOk(s) && view in s.screen.awaiting && s.screen.awaiting[view] == s.w.renderer.epoch
    ensures Go(s, Reveal(view)).screen.epoch == s.w.renderer.epoch
  {
    hide Converging, Known, Promised;
  }

  lemma OneStep(s: Stage, step: Step, epoch: nat)
    requires Ready(s, step) && step.Reveal? && Go(s, step).screen.epoch == epoch
    ensures Reaches(s, [step], epoch)
  {
    hide Go;
    assert [step][1..] == [];
    assert Reaches(Go(s, step), [], epoch);
  }

  lemma SomethingToDeliver(s: Stage)
    requires s.w.inbound.items == [] && s.screen.epoch != s.w.renderer.epoch && Alive(s, s.w.renderer.epoch)
    requires forall v | v in s.screen.awaiting :: s.screen.awaiting[v] != s.w.renderer.epoch
    ensures s.w.renderer.outbound.items != []
  {
    NoMessages<Message>();
  }

  // Handling a message that does not offer the epoch leaves the offers behind it.
  lemma HandleMoves(s: Stage)
    requires s.w.inbound.items != [] && s.screen.epoch != s.w.renderer.epoch && Alive(s, s.w.renderer.epoch) && Connected(s)
    requires forall v | v in s.screen.awaiting :: s.screen.awaiting[v] != s.w.renderer.epoch
    ensures var t := Go(s, Net(AHandle, true));
            && Connected(t) && t.w.renderer == s.w.renderer && |t.w.inbound.items| == |s.w.inbound.items| - 1
            && (!Offers(s.w.inbound.items[0].value, s.w.renderer.epoch) ==> Alive(t, s.w.renderer.epoch))
  {
    hide Values, Apply, Handled;
    var t := Go(s, Net(AHandle, true));
    HeadOfValues(s.w.inbound.items);
    assert Undelivered(s.w) == [s.w.inbound.items[0].value] + Undelivered(t.w);
  }

  // In every reachable connected state the game's epoch is never presented on this connection, whatever the
  // game, the transport and the pages do, if and only if the host does not render under it, no undelivered
  // message offers it and no awaited paint leads to it.
  lemma NeverPresentedExactlyWhen(stages: seq<Stage>, steps: seq<Step>, n: nat)
    requires Execution(stages, steps) && n <= |steps| && Connected(stages[n])
    ensures (forall future :: !Reaches(stages[n], future, stages[n].w.renderer.epoch)) <==> !Alive(stages[n], stages[n].w.renderer.epoch)
  {
    hide StageOk, Go, Carried;
    var s, epoch := stages[n], stages[n].w.renderer.epoch;
    ExecutionKeepsStage(stages, steps, n);
    if Alive(s, epoch) {
      var future := CanPresent(s);
    } else {
      Behind(s);
      forall future ensures !Reaches(s, future, epoch) { DeadForever(s, future, epoch); }
    }
  }

  lemma Behind(s: Stage)
    requires StageOk(s) && s.screen.epoch != s.w.renderer.epoch
    ensures s.w.renderer.epoch > 0
  {
    hide Converging, Known, Promised;
  }

  // ---- which step loses it ----------------------------------------------------------------------------------------------

  // The step takes away the last thing that leads to the game's epoch: a hide replaces the view's show at the
  // back of the game's queue, or on delivery at the back of the host's queue; or a hide, destruction or older
  // show is handled before the view's paint.
  predicate Withdraws(s: Stage, step: Step)
    requires Ready(s, step)
  {
    var ms, epoch := Undelivered(s.w), s.w.renderer.epoch;
    s.screen.epoch != epoch && step.Net? &&
    match step.action
    case ASetViewHidden(view, true, settle) =>
      && SentBy(s.w.renderer, step.action).Some? && SameRun(s.w.renderer.outbound, KeyOf(SentBy(s.w.renderer, step.action).value))
      && ms != [] && !Carried(ms[..|ms| - 1], s.screen.awaiting, epoch)
    case ADeliver(false) =>
      && SameRun(s.w.inbound, KeyOf(s.w.renderer.outbound.items[0].value))
      && |s.w.inbound.items| <= |ms| && !Carried(Dropped(ms, |s.w.inbound.items| - 1), s.screen.awaiting, epoch)
    case AHandle =>
      && s.w.inbound.items != [] && ms != [] && (ms[0].SetHidden? || ms[0].DestroyView?) && !Offers(ms[0], epoch)
      && !Carried(ms[1..], s.screen.awaiting - {if ms[0].SetHidden? then ms[0].view else ms[0].destroyed}, epoch)
    case _ => false
  }

  lemma CarriedSplit(a: seq<Message>, b: seq<Message>, awaiting: map<string, nat>, epoch: nat)
    ensures Carried(a + b, awaiting, epoch) <==> Carried(a, awaiting, epoch) || exists m | m in b :: Offers(m, epoch)
  {
    assert forall m :: m in a + b <==> m in a || m in b;
  }

  lemma ReplaceLast(before: seq<Message>, out: seq<Message>, m: Message)
    requires out != []
    ensures var ms := before + out;
            ms[|ms| - 1] == out[|out| - 1] && before + Dropped(out + [m], |out| - 1) == ms[..|ms| - 1] + [m]
  {
    assert Dropped(out + [m], |out| - 1) == out[..|out| - 1] + [m];
  }

  lemma CallPushes(w: World, a: Action)
    requires Converging(w) && IsSetter(a) && Possible(w, a) && SentBy(w.renderer, a).Some?
    requires w.renderer.lifecycle == Running && HostReplicationProofs.Next(w, a).renderer.lifecycle == Running
    ensures var m, ms, after := SentBy(w.renderer, a).value, Undelivered(w), Undelivered(HostReplicationProofs.Next(w, a));
            if SameRun(w.renderer.outbound, KeyOf(m)) then ms != [] && SetSame(ms[|ms| - 1], m) && after == ms[..|ms| - 1] + [m]
            else after == ms + [m]
  {
    hide HostReplicationProofs.Next, SentBy, KeyOf, ShapeOk, Tracks, Values, Dropped, SetSame, Shorter, Base;
    var m, out, v := SentBy(w.renderer, a).value, w.renderer.outbound, HostReplicationProofs.Next(w, a);
    SetterSends(w, a);
    SetterKeepsHost(w, a);
    PushShortens(out, m);
    var before, ms := Values(w.inbound.items), Values(out.items);
    if SameRun(out, KeyOf(m)) {
      ReplaceLast(before, ms, m);
      assert (ms + [m])[|ms| - 1] == ms[|ms| - 1] && (ms + [m])[|ms|] == m;
    } else {
      assert before + (ms + [m]) == before + ms + [m];
    }
  }

  lemma LossByCall(s: Stage, a: Action, direct: bool)
    requires StageOk(s) && Connected(s) && IsSetter(a) && Possible(s.w, a) && Alive(s, s.w.renderer.epoch)
    requires var t := Go(s, Net(a, direct)); Connected(t) && t.w.renderer.epoch == s.w.renderer.epoch
    ensures !Alive(Go(s, Net(a, direct)), s.w.renderer.epoch) <==> Withdraws(s, Net(a, direct))
  {
    hide HostReplicationProofs.Next, SentBy, KeyOf, Converging, Known, Promised, Undelivered, Sends, Carried, Shorter;
    var sent, ms := SentBy(s.w.renderer, a), Undelivered(s.w);
    SetterMoves(s.w, a);
    SetterSends(s.w, a);
    SentFields(s.w.renderer, HostReplicationProofs.Next(s.w, a).renderer, sent);
    if sent.Some? {
      var m, n, awaiting, epoch := sent.value, |ms| - 1, s.screen.awaiting, s.w.renderer.epoch;
      SentWithin(s.w.renderer, a);
      CallPushes(s.w, a);
      OneOffer(m, epoch);
      if SameRun(s.w.renderer.outbound, KeyOf(m)) {
        assert ms == ms[..n] + [ms[n]];
        OneOffer(ms[n], epoch);
        CarriedSplit(ms[..n], [ms[n]], awaiting, epoch);
        CarriedSplit(ms[..n], [m], awaiting, epoch);
      } else {
        CarriedSplit(ms, [m], awaiting, epoch);
      }
    }
  }

  lemma OneOffer(m: Message, epoch: nat)
    ensures (exists x | x in [m] :: Offers(x, epoch)) <==> Offers(m, epoch)
  {
    assert m in [m];
  }

  // A delivery on a connection that lasts.
  lemma DeliverQueues(w: World, oversized: bool)
    requires Possible(w, ADeliver(oversized)) && w.renderer.lifecycle == Running && w.hostUp && Deliver(w, oversized).hostUp
    ensures var x := w.renderer.outbound.items[0].value; var v := Deliver(w, oversized);
            && v.renderer.outbound.items == w.renderer.outbound.items[1..]
            && (oversized ==> !x.Viewport? && !x.SetHidden? && v.inbound == w.inbound)
            && (!oversized ==> v.inbound == Pushed(w.inbound, x, KeyOf(x)) && PushOutcome(w.inbound, KeyOf(x)) != Full)
  {
    hide KeyOf;
  }

  lemma DropInFront(before: seq<Message>, x: Message, rest: seq<Message>)
    requires before != []
    ensures Dropped(before + [x], |before| - 1) + rest == Dropped(before + [x] + rest, |before| - 1)
  {}

  lemma LossByDelivery(s: Stage, oversized: bool, direct: bool)
    requires StageOk(s) && Connected(s) && Possible(s.w, ADeliver(oversized)) && Alive(s, s.w.renderer.epoch)
    requires Connected(Go(s, Net(ADeliver(oversized), direct)))
    ensures !Alive(Go(s, Net(ADeliver(oversized), direct)), s.w.renderer.epoch) <==> Withdraws(s, Net(ADeliver(oversized), direct))
  {
    hide KeyOf, RendererOk, Tracks, Known, Promised, Carried, Base, Deliver, Values, Dropped, Superseded, Shorter, EpochsOk;
    var x, rest, before := s.w.renderer.outbound.items[0].value, Values(s.w.renderer.outbound.items[1..]), Values(s.w.inbound.items);
    var ms, t := Undelivered(s.w), Go(s, Net(ADeliver(oversized), direct));
    HeadOfValues(s.w.renderer.outbound.items);
    assert ms == before + [x] + rest;
    DeliverFields(s.w, oversized);
    DeliverQueues(s.w, oversized);
    if oversized {
      CarriedAcross(before, x, rest, s.screen.awaiting, s.w.renderer.epoch);
    } else {
      PushShortens(s.w.inbound, x);
      if SameRun(s.w.inbound, KeyOf(x)) { DropInFront(before, x, rest); }
    }
  }

  lemma CarriedAcross(before: seq<Message>, x: Message, rest: seq<Message>, awaiting: map<string, nat>, epoch: nat)
    requires !Offers(x, epoch)
    ensures Carried(before + [x] + rest, awaiting, epoch) <==> Carried(before + rest, awaiting, epoch)
  {
    assert forall m :: m in before + [x] + rest <==> m in before + rest || m == x;
  }

  lemma LossByHandling(s: Stage, direct: bool)
    requires StageOk(s) && Connected(s) && Alive(s, s.w.renderer.epoch)
    ensures !Alive(Go(s, Net(AHandle, direct)), s.w.renderer.epoch) <==> Withdraws(s, Net(AHandle, direct))
  {
    hide Converging, Known, Promised, Apply, Values, Ids, Handled, Carried;
    if s.w.inbound.items != [] {
      var m, t, epoch := s.w.inbound.items[0].value, Go(s, Net(AHandle, direct)), s.w.renderer.epoch;
      var rest := Undelivered(t.w);
      HeadOfValues(s.w.inbound.items);
      assert Undelivered(s.w) == [m] + rest;
      assert Undelivered(s.w)[1..] == rest;
      assert m in Undelivered(s.w);
      KnownAppend(Ids(s.w.host.views), [m], rest);
      OneMessage(Ids(s.w.host.views), m);
      if m.SetHidden? { FoundExactly(s.w.host.views, m.view); }
      if !Offers(m, epoch) {
        CarriedAcross([], m, rest, s.screen.awaiting, epoch);
        assert [] + [m] + rest == [m] + rest && [] + rest == rest;
      }
      AfterHandling(s.screen, s.w.host, m, direct, rest, epoch);
    }
  }

  lemma AfterHandling(screen: Screen, h: Host, m: Message, direct: bool, rest: seq<Message>, epoch: nat)
    requires screen.epoch <= epoch && Within(m, epoch) && (m.SetHidden? ==> Find(h.views, m.view) < |h.views|)
    ensures var t := Handled(screen, h, m, direct);
            t.epoch == epoch || Carried(rest, t.awaiting, epoch) <==>
              || screen.epoch == epoch || Offers(m, epoch)
              || Carried(rest, if m.SetHidden? then screen.awaiting - {m.view} else if m.DestroyView? then screen.awaiting - {m.destroyed} else screen.awaiting, epoch)
  {
    hide Find;
    var t := Handled(screen, h, m, direct);
    if screen.epoch != epoch && !Offers(m, epoch) {
      var left := if m.SetHidden? then screen.awaiting - {m.view} else if m.DestroyView? then screen.awaiting - {m.destroyed} else screen.awaiting;
      if v :| v in left && left[v] == epoch { assert v in t.awaiting && t.awaiting[v] == epoch; }
      if v :| v in t.awaiting && t.awaiting[v] == epoch { assert v in left && left[v] == epoch; }
    }
    if Offers(m, epoch) && m.SetHidden? && t.epoch != epoch { assert m.view in t.awaiting && t.awaiting[m.view] == epoch; }
  }

  // A step on a connection that lasts, and that begins no epoch, loses the epoch exactly when it withdraws it.
  lemma OfferIsLostExactlyWhen(stages: seq<Stage>, steps: seq<Step>, n: nat)
    requires Execution(stages, steps) && n < |steps| && Connected(stages[n]) && Connected(stages[n + 1])
    requires !(steps[n].Net? && steps[n].action.AConnect?) && stages[n + 1].w.renderer.epoch == stages[n].w.renderer.epoch
    requires Alive(stages[n], stages[n].w.renderer.epoch)
    ensures Ready(stages[n], steps[n])
    ensures !Alive(stages[n + 1], stages[n].w.renderer.epoch) <==> Withdraws(stages[n], steps[n])
  {
    hide StageOk, Go, Carried;
    var s, step := stages[n], steps[n];
    ExecutionKeepsStage(stages, steps, n);
    assert Leads(s, step, stages[n + 1]);
    match step
    case Reveal(view) => RevealLosesNothing(s, view);
    case Net(a, direct) =>
      if IsSetter(a) {
        LossByCall(s, a, direct);
      } else {
        match a
        case ADeliver(oversized) => LossByDelivery(s, oversized, direct);
        case AHandle => LossByHandling(s, direct);
        case _ => EndsStay(s, a, direct);
      }
  }

  lemma EndsStay(s: Stage, a: Action, direct: bool)
    requires (a.AStart? || a.ALost? || a.AStop? || a.ARestart?) && Connected(s) && Connected(Go(s, Net(a, direct)))
    ensures Go(s, Net(a, direct)) == s
  {}

  lemma RevealLosesNothing(s: Stage, view: string)
    requires StageOk(s) && view in s.screen.awaiting && Alive(s, s.w.renderer.epoch)
    ensures Alive(Go(s, Reveal(view)), s.w.renderer.epoch)
  {
    hide Converging, Known, Promised, Undelivered;
    var t, epoch := Go(s, Reveal(view)), s.w.renderer.epoch;
    if v :| v in s.screen.awaiting && s.screen.awaiting[v] == epoch {
      if v != view { assert v in t.screen.awaiting && t.screen.awaiting[v] == epoch; }
    }
  }

  // It does happen: on a connection with nothing undelivered and another view visible, showing a hidden view
  // and hiding it again leaves frames accepted only under an epoch that is never presented.
  lemma ShowThenHideIsNeverPresented(stages: seq<Stage>, steps: seq<Step>, n: nat, id: string, direct: bool)
    requires Execution(stages, steps) && n + 2 <= |steps| && Connected(stages[n])
    requires stages[n].w.inbound.items == [] && stages[n].w.renderer.outbound.items == []
    requires var r := stages[n].w.renderer; id != "" && FindView(r, id) < |r.views| && r.views[FindView(r, id)].mirror.hidden && !r.allHidden
    requires steps[n] == Net(ASetViewHidden(id, false, false), direct) && steps[n + 1] == Net(ASetViewHidden(id, true, false), direct)
    ensures var t := stages[n + 2];
            && Connected(t) && t.w.renderer.framesAccept && t.w.renderer.framesEpoch == t.w.renderer.epoch
            && forall future :: !Reaches(t, future, t.w.renderer.epoch)
  {
    hide Converging, Known, Promised, SetViewHidden, FindView, Reaches;
    var s, t := stages[n], stages[n + 2];
    ExecutionKeepsStage(stages, steps, n);
    assert Leads(s, steps[n], stages[n + 1]) && Leads(stages[n + 1], steps[n + 1], t);
    OkConverges(s);
    assert RendererOk(s.w.renderer) by { RendererFine(s.w); }
    ShowThenHideQueuesTheHide(s.w.renderer, id);
    var hiding := Item(SetHidden(id, true, s.w.renderer.epoch + 1, false), "setHidden:" + id);
    NoMessages<Message>();
    HeadOfValues([hiding]);
    assert [hiding][1..] == [];
    assert Undelivered(t.w) == [hiding.value];
    NeverPresentedExactlyWhen(stages, steps, n + 2);
  }

  lemma RendererFine(w: World)
    requires Converging(w)
    ensures RendererOk(w.renderer)
  {}
}
