// What the overlay does and not only what it never does: an announced ring is imported as soon as no draw of the old
// one is left, a frame that can be drawn is drawn, and a draw the GPU has finished is forgotten at the next poll.
module OverlayImports {
  import opened Wrappers
  import opened SharedFrameModel
  import opened SharedFrameProofs
  import opened OverlayModel
  import opened OverlayProofs

  // ---- rings ----------------------------------------------------------------------------------------------------

  // How many rings were announced.
  function Announced(actions: seq<Action>, n: nat): nat
    requires n <= |actions|
  {
    if n == 0 then 0 else Announced(actions, n - 1) + if actions[n - 1].Announce? then 1 else 0
  }

  // The ring announced last, until an adoption takes it or its host is gone.
  function Waiting(worlds: seq<World>, actions: seq<Action>, n: nat): Option<Ring>
    requires |worlds| == |actions| + 1 && n <= |actions|
  {
    if n == 0 then None
    else match actions[n - 1]
      case Announce(slotCount, width, height) => Some(Ring(Announced(actions, n), slotCount, width, height))
      case HostGone => None
      case Adopt(_, _) => if worlds[n - 1].o.frames.gpuReads == [] then None else Waiting(worlds, actions, n - 1)
      case _ => Waiting(worlds, actions, n - 1)
  }

  // The generation whose textures are imported: that of the last ring adopted, 0 when its import failed.
  function Imported(worlds: seq<World>, actions: seq<Action>, n: nat): nat
    requires |worlds| == |actions| + 1 && n <= |actions|
  {
    if n == 0 then 0
    else match actions[n - 1]
      case Adopt(imported, _) =>
        var ring := Waiting(worlds, actions, n - 1);
        if worlds[n - 1].o.frames.gpuReads != [] || ring.None? then Imported(worlds, actions, n - 1)
        else if imported && 0 < ring.value.slotCount <= 8 then ring.value.generation else 0
      case _ => Imported(worlds, actions, n - 1)
  }

  predicate SameImports(o: Overlay, p: Overlay) {
    p.pendingRing == o.pendingRing && p.nextGeneration == o.nextGeneration && p.activeGeneration == o.activeGeneration
  }

  lemma OtherImports(w: World, a: Action)
    requires Enabled(w, a) && !a.Announce? && !a.HostGone? && !a.Adopt?
    ensures SameImports(w.o, Next(w, a).o)
  {
    hide Sound, Step, Record, Submitted, PollFrom, TakeReleases, HasRecordedIn, HasRecorded, StampAll, Advance, NextValue;
  }

  lemma RingImports(w: World, a: Action)
    requires Enabled(w, a)
    ensures var p := Next(w, a).o;
            match a
            case Announce(slotCount, width, height) =>
              && p.nextGeneration == w.o.nextGeneration + 1 && p.activeGeneration == w.o.activeGeneration
              && p.pendingRing == Some(Ring(w.o.nextGeneration + 1, slotCount, width, height))
            case HostGone => p.nextGeneration == w.o.nextGeneration && p.activeGeneration == w.o.activeGeneration && p.pendingRing == None
            case Adopt(imported, _) =>
              && p.nextGeneration == w.o.nextGeneration
              && p.pendingRing == (if w.o.frames.gpuReads == [] then None else w.o.pendingRing)
              && p.activeGeneration == if w.o.frames.gpuReads != [] || w.o.pendingRing.None? then w.o.activeGeneration
                                       else if imported && 0 < w.o.pendingRing.value.slotCount <= 8 then w.o.pendingRing.value.generation else 0
            case _ => SameImports(w.o, p)
  {
    if !a.Announce? && !a.HostGone? && !a.Adopt? { OtherImports(w, a); }
    hide Sound, Step, Record, Submitted, PollFrom, TakeReleases, HasRecordedIn, BeginRing, SharedFrameModel.Disconnect;
  }

  // In every run the ring that waits and the textures that are imported are those the announcements and adoptions
  // give: an adoption with no draw outstanding takes the waiting ring and, if the import succeeds, its textures.
  lemma {:induction false} RingsAreAsAnnounced(worlds: seq<World>, actions: seq<Action>, n: nat)
    requires Execution(worlds, actions) && n <= |actions|
    ensures var o := worlds[n].o;
            o.nextGeneration == Announced(actions, n) && o.pendingRing == Waiting(worlds, actions, n) && o.activeGeneration == Imported(worlds, actions, n)
  {
    hide Next, Enabled;
    if n > 0 {
      RingsAreAsAnnounced(worlds, actions, n - 1);
      var a := actions[n - 1];
      assert Leads(worlds[n - 1], a, worlds[n]);
      RingImports(worlds[n - 1], a);
    }
  }

  // ---- draws ------------------------------------------------------------------------------------------------------

  // The frame a draw takes: the pending one once it is produced and no preparation is rendering, else the displayed
  // one, and only of the imported ring.
  function Drawable(s: State, generation: nat, produced: nat): Option<Frame> {
    if s.pending.Some? && s.preparation != Rendering && s.pending.value.view.ringGeneration == generation && s.pending.value.view.frameIndex <= produced
    then s.pending
    else if s.current.Some? && s.current.value.view.ringGeneration == generation then s.current
    else None
  }

  // A draw on a visible overlay puts exactly that frame on the command list, when textures are imported, the device is
  // there and a pipeline exists; otherwise the GPU gets nothing.
  lemma DrawsExactlyTheDrawable(worlds: seq<World>, actions: seq<Action>, k: nat)
    requires Execution(worlds, actions) && k < |actions| && actions[k].Draw?
    ensures var w, v, list := worlds[k], worlds[k + 1], actions[k].list;
            var f := Drawable(w.o.frames, w.o.activeGeneration, w.produced);
            if w.o.frames.visible && list != 0 && w.o.activeGeneration != 0 && !w.removed && w.produced != UINT64_MAX && actions[k].pipeline && f.Some?
            then v.uses == w.uses + {Read(f.value, list, 0, 0)} && Read(f.value, list, 0, 0) in v.o.frames.gpuReads
            else v.uses == w.uses && v.o == w.o
  {
    hide Safe, Next;
    var w, a := worlds[k], actions[k];
    ExecutionSafe(worlds, actions, k);
    ExecutionSafe(worlds, actions, k + 1);
    assert Leads(w, a, worlds[k + 1]);
    DrawnWhen(w, a);
    UsesAreReads(w);
    UsesAreReads(worlds[k + 1]);
  }

  lemma UsesAreReads(w: World)
    requires Safe(w)
    ensures (forall u | u in w.uses :: u in w.o.frames.gpuReads) && FlagOk(w.o)
  {}

  lemma DrawnWhen(w: World, a: Action)
    requires Enabled(w, a) && a.Draw?
    ensures var v := Next(w, a); var f := Drawable(w.o.frames, w.o.activeGeneration, w.produced);
            if w.o.frames.visible && a.list != 0 && w.o.activeGeneration != 0 && !w.removed && w.produced != UINT64_MAX && a.pipeline && f.Some?
            then v.uses == w.uses + {Read(f.value, a.list, 0, 0)}
            else v.uses == w.uses && (FlagOk(w.o) ==> v.o == w.o)
  {
    hide Sound, Promote, HasRecorded, Held;
  }

  predicate FlagOk(o: Overlay) {
    o.hasRecorded <==> HasRecorded(o.frames)
  }

  // ---- completions --------------------------------------------------------------------------------------------------

  // A poll forgets exactly the draws whose queue's fence has reached the value of their submission; with the device
  // removed, which shows as fences at their largest value, it forgets none.
  lemma PollForgetsExactlyTheFinished(worlds: seq<World>, actions: seq<Action>, k: nat, r: Read)
    requires Execution(worlds, actions) && k < |actions| && actions[k].PollTick? && r in worlds[k].o.frames.gpuReads
    ensures r in worlds[k + 1].o.frames.gpuReads <==>
              var reached := ValueOf(worlds[k].done, r.queue);
              worlds[k].removed || r.list != 0 || r.queue == 0 || reached < r.completion || reached == UINT64_MAX
  {
    hide Safe, Next;
    var w := worlds[k];
    ExecutionSafe(worlds, actions, k);
    assert Leads(w, actions[k], worlds[k + 1]);
    PolledReads(w, r);
    ReachedWhen(w, r);
  }

  lemma PolledReads(w: World, r: Read)
    requires Enabled(w, PollTick)
    ensures r in Next(w, PollTick).o.frames.gpuReads <==> r in w.o.frames.gpuReads && !Reached(r, w.o.timelines, FenceValues(w))
  {
    PollReads(w.o.frames, w.o.timelines, FenceValues(w), r);
    hide Sound, PollFrom;
  }

  lemma ReachedWhen(w: World, r: Read)
    requires Safe(w) && r in w.o.frames.gpuReads
    ensures Reached(r, w.o.timelines, FenceValues(w)) <==> !w.removed && r.list == 0 && r.queue != 0 && r.completion <= ValueOf(w.done, r.queue) != UINT64_MAX
  {
    hide Inv, RingOk, HandlesOk, DrawnOk;
    assert ReadOk(w.o, r);
    if r.list == 0 && r.queue != 0 { HasItsTimeline(w.o.timelines, r.queue); }
  }

  // A queue that was ever signalled has a timeline.
  lemma {:induction false} HasItsTimeline(timelines: seq<Timeline>, queue: nat)
    requires NextValue(timelines, queue) > 1
    ensures exists t | t in timelines :: t.queue == queue
  {
    if timelines[0].queue != queue {
      HasItsTimeline(timelines[1..], queue);
      var t :| t in timelines[1..] && t.queue == queue;
      assert t in timelines;
    } else {
      assert timelines[0] in timelines;
    }
  }
}
