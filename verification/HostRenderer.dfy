// The renderer's bookkeeping as the source writes it: fields changed in place under one lock, messages
// pushed into the shared bounded queue. Each method is proved against HostReplicationModel.
module HostRendererObjects {
  import opened BoundedQueues
  import opened HostReplicationModel

  class HostRenderer {
    var views: seq<ViewRec>
    var inputTarget: string
    var allHidden: bool
    var epoch: nat
    var width: nat
    var height: nat
    var viewportWidth: nat
    var viewportHeight: nat
    var pointerInput: bool
    var focusRequested: bool
    var windowActive: bool
    var lifecycle: Lifecycle
    var framesEpoch: nat
    var framesAccept: bool
    const outbound: BoundedQueue<Message>

    function Abs(): Renderer
      reads this, outbound
    {
      Renderer(views, inputTarget, allHidden, epoch, width, height, viewportWidth, viewportHeight,
               pointerInput, focusRequested, windowActive, lifecycle, outbound.Abs(), framesEpoch, framesAccept)
    }

    constructor (width: nat, height: nat)
      ensures Abs() == Fresh(width, height) && fresh(outbound)
    {
      views, inputTarget, allHidden, epoch := [], "", true, 0;
      this.width, this.height := AtLeastOne(width), AtLeastOne(height);
      viewportWidth, viewportHeight := AtLeastOne(width), AtLeastOne(height);
      pointerInput, focusRequested, windowActive, lifecycle := true, false, true, Stopped;
      framesEpoch, framesAccept := 0, false;
      outbound := new BoundedQueue(MAX_OUTBOUND);
    }

    method SignalDead()
      modifies this, outbound
      ensures Abs() == HostReplicationModel.SignalDead(old(Abs()))
    {
      if lifecycle == Starting || lifecycle == Running { lifecycle := Failed; }
      outbound.Close();
    }

    method Enqueue(m: Message, queueBeforeConnect: bool)
      modifies this, outbound
      ensures Abs() == HostReplicationModel.Enqueue(old(Abs()), m, queueBeforeConnect)
    {
      if !queueBeforeConnect && lifecycle != Running { return; }
      var result := outbound.Push(m, KeyOf(m));
      if result == Full { SignalDead(); }
    }

    method Send(m: Message)
      modifies this, outbound
      ensures Abs() == HostReplicationModel.Send(old(Abs()), m)
    {
      Enqueue(m, false);
    }

    method FindView(id: string) returns (i: nat)
      ensures i == HostReplicationModel.FindView(Abs(), id)
    {
      i := 0;
      while i < |views|
        invariant i <= |views|
        invariant forall k | 0 <= k < i :: views[k].mirror.id != id
      {
        if views[i].mirror.id == id { return; }
        i := i + 1;
      }
    }

    method RecomputeAllHidden()
      modifies this
      ensures Abs() == old(Abs()).(allHidden := NoneVisible(old(views)))
    {
      allHidden := true;
      for i := 0 to |views|
        invariant Abs() == old(Abs()).(allHidden := true)
        invariant forall k | 0 <= k < i :: views[k].mirror.hidden
      {
        if !views[i].mirror.hidden {
          allHidden := false;
          return;
        }
      }
    }

    // The frame consumer's SetPresentation, whose last arguments are kept here.
    method SetPresentation(epoch: nat, accept: bool)
      modifies this`framesEpoch, this`framesAccept
      ensures Abs() == old(Abs()).(framesEpoch := epoch, framesAccept := accept)
    {
      framesEpoch, framesAccept := epoch, accept;
    }

    method BeginPresentation()
      modifies this
      ensures Abs() == HostReplicationModel.BeginPresentation(old(Abs()))
    {
      epoch := epoch + 1;
      SetPresentation(epoch, !allHidden);
    }

    method CreateOrNavigateView(id: string, entry: string, height: nat, legacy: bool)
      modifies this, outbound
      ensures Abs() == HostReplicationModel.CreateOrNavigateView(old(Abs()), id, entry, height, legacy)
    {
      var logicalHeight := AtLeastOne(height);
      var i := FindView(id);
      if i == |views| {
        views := views + [ViewRec(HostView(id, "", false, 1, true, 0), false)];
      }
      views := views[i := views[i].(mirror := views[i].mirror.(entry := entry, legacy := legacy, logicalHeight := logicalHeight))];
      if inputTarget == "" { inputTarget := id; }
      Send(Navigate(id, entry, logicalHeight, legacy));
    }

    method SetInputTargetView(id: string)
      modifies this, outbound
      ensures Abs() == HostReplicationModel.SetInputTargetView(old(Abs()), id)
    {
      var i := FindView(id);
      if i == |views| || inputTarget == id { return; }
      inputTarget := id;
      Send(SetInputTarget(id));
    }

    method SetSize(newWidth: nat, newHeight: nat)
      modifies this, outbound
      ensures Abs() == HostReplicationModel.SetSize(old(Abs()), newWidth, newHeight)
    {
      if newWidth == 0 || newHeight == 0 { return; }
      if width == newWidth && height == newHeight { return; }
      width, height := newWidth, newHeight;
      Send(Resize(newWidth, newHeight));
    }

    method SetViewport(newWidth: nat, newHeight: nat)
      modifies this, outbound
      ensures Abs() == HostReplicationModel.SetViewport(old(Abs()), newWidth, newHeight)
    {
      if newWidth == 0 || newHeight == 0 { return; }
      if viewportWidth == newWidth && viewportHeight == newHeight { return; }
      viewportWidth, viewportHeight := newWidth, newHeight;
      BeginPresentation();
      Send(Viewport(viewportWidth, viewportHeight, epoch));
    }

    method SetPointerInputEnabled(enabled: bool)
      modifies this, outbound
      ensures Abs() == HostReplicationModel.SetPointerInputEnabled(old(Abs()), enabled)
    {
      if pointerInput == enabled { return; }
      pointerInput := enabled;
      Send(PointerInput(enabled));
    }

    method ResetPresentation()
      modifies this, outbound
      ensures Abs() == HostReplicationModel.ResetPresentation(old(Abs()))
    {
      BeginPresentation();
      Send(Viewport(viewportWidth, viewportHeight, epoch));
    }

    method SendMessageToWeb(id: string, json: string)
      modifies this, outbound
      ensures Abs() == HostReplicationModel.SendMessageToWeb(old(Abs()), id, json)
    {
      var i := FindView(id);
      if i == |views| { return; }
      Enqueue(PostWeb(id, json), true);
    }

    method SetInputFocus(focused: bool)
      modifies this, outbound
      ensures Abs() == HostReplicationModel.SetInputFocus(old(Abs()), focused)
    {
      focusRequested := focused;
      Send(Focus(focused));
    }

    method SetWindowActive(active: bool)
      modifies this, outbound
      ensures Abs() == HostReplicationModel.SetWindowActive(old(Abs()), active)
    {
      windowActive := active;
      Send(WindowActive(active));
    }

    method SetViewHidden(id: string, hidden: bool, settleColdOpen: bool)
      modifies this, outbound
      ensures Abs() == HostReplicationModel.SetViewHidden(old(Abs()), id, hidden, settleColdOpen)
    {
      hide Mirrors, NoneVisible, Find, HostReplicationModel.Send;
      var i := FindView(id);
      if i == |views| { return; }
      var beginOpening := !hidden && settleColdOpen && !views[i].settleColdOpen;
      views := views[i := views[i].(settleColdOpen := !hidden && settleColdOpen)];
      if views[i].mirror.hidden == hidden && !beginOpening { return; }
      views := views[i := views[i].(mirror := views[i].mirror.(hidden := hidden))];
      assert views == old(views)[i := views[i]];
      RecomputeAllHidden();
      if !hidden {
        BeginPresentation();
      } else if allHidden {
        SetPresentation(epoch, false);
      }
      Send(SetHidden(id, hidden, epoch, views[i].settleColdOpen));
    }

    method SetViewOrder(id: string, order: int)
      modifies this, outbound
      ensures Abs() == HostReplicationModel.SetViewOrder(old(Abs()), id, order)
    {
      var i := FindView(id);
      if i == |views| || views[i].mirror.order == order { return; }
      views := views[i := views[i].(mirror := views[i].mirror.(order := order))];
      Send(SetOrder(id, order));
    }

    // std::erase_if over the records.
    method EraseViews(id: string)
      modifies this`views
      ensures Abs() == old(Abs()).(views := Erased(old(views), id))
    {
      var kept, i := [], 0;
      while i < |views|
        invariant i <= |views| && views == old(views)
        invariant kept + Erased(views[i..], id) == Erased(views, id)
      {
        if views[i].mirror.id != id { kept := kept + [views[i]]; }
        i := i + 1;
      }
      views := kept;
    }

    method RetargetInput(gone: string)
      modifies this`inputTarget
      ensures Abs() == old(Abs()).(inputTarget := FirstTarget(old(inputTarget), views, gone))
    {
      if inputTarget == gone { inputTarget := if views == [] then "" else views[0].mirror.id; }
    }

    method DestroyView(id: string)
      modifies this, outbound
      ensures Abs() == HostReplicationModel.DestroyOne(old(Abs()), id)
    {
      hide Mirrors, Erased, NoneVisible, Find, HostReplicationModel.FindView, HostReplicationModel.Send;
      hide FirstTarget;
      var i := FindView(id);
      if i == |views| { return; }
      EraseViews(id);
      RetargetInput(id);
      RecomputeAllHidden();
      if allHidden { SetPresentation(epoch, false); }
      Send(HostReplicationModel.DestroyView(id));
    }

    method Start(adapter: bool)
      modifies this
      ensures Abs() == HostReplicationModel.Start(old(Abs()), adapter)
    {
      if lifecycle != Stopped { return; }
      lifecycle := Starting;
      if !adapter { lifecycle := Stopped; }
    }

    // Three messages a view, in creation order.
    method SnapshotViews(header: seq<Item<Message>>) returns (bootstrap: seq<Item<Message>>)
      ensures bootstrap == header + ViewSnapshot(views, epoch)
    {
      bootstrap := header;
      var i := 0;
      while i < |views|
        invariant i <= |views| && bootstrap + ViewSnapshot(views[i..], epoch) == header + ViewSnapshot(views, epoch)
      {
        var v := views[i].mirror;
        assert views[i..][0] == views[i] && views[i..][1..] == views[i + 1..];
        bootstrap := bootstrap + [Plain(Navigate(v.id, v.entry, v.logicalHeight, v.legacy)),
                                  Plain(SetHidden(v.id, v.hidden, epoch, views[i].settleColdOpen)),
                                  Plain(SetOrder(v.id, v.order))];
        i := i + 1;
      }
    }

    // The worker's connection step: snapshot, PublishConnected, SignalDead on failure.
    method Connect()
      modifies this, outbound
      ensures Abs() == HostReplicationModel.Connect(old(Abs()))
    {
      var bootstrap := SnapshotViews([Plain(Init(width, height)), Plain(Viewport(viewportWidth, viewportHeight, epoch)),
                                      Plain(PointerInput(pointerInput)), Plain(WindowActive(windowActive))]);
      if inputTarget != "" { bootstrap := bootstrap + [Plain(SetInputTarget(inputTarget))]; }
      bootstrap := bootstrap + [Plain(Focus(focusRequested))];
      hide ViewSnapshot;
      assert bootstrap == Bootstrap(Abs());
      PublishConnected(bootstrap);
    }

    method PublishConnected(bootstrap: seq<Item<Message>>)
      requires bootstrap == Bootstrap(Abs())
      modifies this, outbound
      ensures Abs() == HostReplicationModel.Connect(old(Abs()))
    {
      hide Bootstrap;
      var prepended := outbound.Prepend(bootstrap);
      if prepended && lifecycle == Starting {
        lifecycle := Running;
      } else {
        SignalDead();
      }
    }

    method Stop()
      modifies this, outbound
      ensures Abs() == HostReplicationModel.Stop(old(Abs()))
    {
      if lifecycle == Stopped || lifecycle == Stopping { return; }
      lifecycle := Stopping;
      outbound.Close();
      lifecycle := Stopped;
    }

    method RestartAfterFailure()
      modifies this, outbound
      ensures Abs() == HostReplicationModel.RestartAfterFailure(old(Abs()))
    {
      Stop();
      outbound.Reset();
      focusRequested := false;
    }
  }
}
