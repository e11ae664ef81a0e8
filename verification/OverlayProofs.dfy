// Safety of the whole overlay: browser, consumer, compositor and GPU.
//
// `uses` is the GPU's own view: the draws it may still execute. A draw enters it when its command
// list is recorded, is stamped with the queue and fence value of its submission, and leaves it only
// when that queue's fence reaches the value. The consumer never sees `uses`; the proofs show that its
// bookkeeping covers it.
module OverlayProofs {
  import opened Wrappers
  import opened SharedFrameModel
  import opened SharedFrameProofs
  import opened OverlayModel

  // `done` is the completed value of each queue's fence, `produced` that of the imported produce fence.
  datatype World = World(o: Overlay, h: History, uses: set<Read>, produced: nat, done: map<nat, nat>, removed: bool)

  const Boot := World(OverlayModel.Idle, NoHistory, {}, 0, map[], false)

  datatype Action =
    | Announce(slotCount: nat, width: nat, height: nat)
    | HostGone
    | Select(event: Event)                                  // calls that touch the selection only
    | Adopt(imported: bool, fenceValue: nat)
    | Draw(list: nat, pipeline: bool)
    | Execute(queue: nat, lists: set<nat>, created: bool, signalled: bool)
    | PollTick
    | Acknowledge
    | GpuReaches(gpuQueue: nat, gpuValue: nat)
    | BrowserProduces(serial: nat)
    | DeviceRemoved

  predicate SelectionEvent(e: Event) {
    e.ESetPresentation? || e.EBeginPreparation? || e.EEndPreparation? || e.ESetVisible? || e.EPublish?
  }

  // Fences move forward, and only to values that were signalled.
  predicate Possible(w: World, a: Action) {
    match a
    case Announce(slotCount, _, _) => slotCount <= MAX_SLOTS
    case Select(e) => SelectionEvent(e)
    case GpuReaches(q, v) => q != 0 && ValueOf(w.done, q) <= v < NextValue(w.o.timelines, q)
    case BrowserProduces(serial) => w.produced <= serial
    case _ => true
  }

  function FenceValues(w: World): map<nat, nat> {
    if w.removed then map q | q in w.done :: UINT64_MAX else w.done
  }

  function StampAll(uses: set<Read>, lists: set<nat>, queue: nat, value: nat): set<Read> {
    set u | u in uses :: SharedFrameModel.Submit(u, lists, queue, value)
  }

  function Next(w: World, a: Action): World
    requires Ready(w.o) && |w.h.consumed| == |w.h.acked| == MAX_SLOTS && Possible(w, a)
  {
    match a
    case Announce(slotCount, width, height) =>
      w.(o := AnnounceRing(w.o, slotCount, width, height), h := NoHistory)
    case HostGone => w.(o := OverlayModel.Disconnect(w.o), h := NoHistory)
    case Select(e) =>
      var m := Step(Model(w.o.frames, w.h), e);
      w.(o := w.o.(frames := m.s), h := m.h)
    case Adopt(imported, fenceValue) =>
      var o := EnsureSharedRing(w.o, imported);
      w.(o := o, produced := if o.activeGeneration == w.o.activeGeneration then w.produced else fenceValue)
    case Draw(list, pipeline) => DrawStep(w, list, if w.removed then UINT64_MAX else w.produced, pipeline)
    case Execute(queue, lists, created, signalled) =>
      var o := OnExecuted(w.o, queue, lists, FenceValues(w), created, signalled);
      if queue == 0 || lists == {} || !w.o.hasRecorded then w.(o := o) else
      var stamped := HasTimeline(w.o.timelines, queue) || created;
      w.(o := o, uses := StampAll(w.uses, lists, if stamped && signalled then queue else 0,
                                  if stamped then NextValue(w.o.timelines, queue) else 0))
    case PollTick => w.(o := Poll(w.o, FenceValues(w)))
    case Acknowledge =>
      w.(o := w.o.(frames := TakeReleases(w.o.frames).1), h := NoteReleases(w.o.frames, w.h))
    case GpuReaches(q, v) => w.(done := w.done[q := v], uses := set u | u in w.uses && !Done(u, q, v))
    case BrowserProduces(serial) => w.(produced := serial)
    case DeviceRemoved => w.(removed := true)
  }

  function DrawStep(w: World, list: nat, produced: nat, pipeline: bool): World
    requires Ready(w.o)
  {
    var (view, o) := RecordOverlay(w.o, list, produced, pipeline);
    if view.None? then w.(o := o) else
    w.(o := o, h := NoteRecord(w.o.frames, w.h, ERecord(list, w.o.activeGeneration, produced)),
       uses := w.uses + {Read(DrawnFrame(w, produced), list, 0, 0)})
  }

  function DrawnFrame(w: World, produced: nat): Frame {
    var f := Selected(w.o.frames, w.o.activeGeneration, produced);
    if f.Some? then f.value else Frame(View(0, 0, 0, 0, 0), 0)
  }

  // ---- the invariant ---------------------------------------------------------------------------

  // Generations are numbered in the order they were announced.
  predicate Numbered(o: Overlay) {
    && |o.frames.gens| == o.nextGeneration
    && forall i | 0 <= i < |o.frames.gens| :: o.frames.gens[i].id == i + 1
  }

  predicate RingOk(o: Overlay) {
    && Numbered(o) && o.activeGeneration <= o.nextGeneration
    && (o.frames.ring.Some? ==> o.frames.ring.value + 1 == o.nextGeneration)
    && (o.pendingRing.Some? ==>
          && o.nextGeneration > 0 && o.pendingRing.value.generation == o.nextGeneration
          && o.frames.ring == Some((o.nextGeneration - 1) as nat) && o.activeGeneration != o.nextGeneration)
  }

  // Every outstanding read refers to the imported textures, and is stamped with a value its queue was given.
  predicate ReadOk(o: Overlay, r: Read) {
    && r.frame.view.ringGeneration == o.activeGeneration && o.activeGeneration != 0
    && (if r.list != 0 then r.queue == 0 && r.completion == 0
        else r.queue != 0 ==> 0 < r.completion < NextValue(o.timelines, r.queue))
  }

  predicate ReadsOk(w: World) {
    && (w.o.hasRecorded <==> HasRecorded(w.o.frames))
    && (forall r | r in w.o.frames.gpuReads :: ReadOk(w.o, r))
    && (forall u | u in w.uses :: u in w.o.frames.gpuReads)
    && (forall u | u in w.uses && u.list == 0 && u.queue != 0 :: u.completion > ValueOf(w.done, u.queue))
    && (forall q | q in w.done :: w.done[q] < NextValue(w.o.timelines, q))
    && (forall t | t in w.o.timelines :: t.nextValue > 0)
  }

  // The ring handles of every announced generation are closed once, except those still waiting.
  ghost predicate HandlesOk(o: Overlay) {
    forall g: nat :: o.closed[g] ==
      if 0 < g <= o.nextGeneration && !(o.pendingRing.Some? && o.pendingRing.value.generation == g) then 1 else 0
  }

  // The displayed frame lies in the imported textures and has been produced.
  predicate DrawnOk(w: World) {
    w.o.frames.current.Some? ==>
      && w.o.frames.current.value.view.ringGeneration == w.o.activeGeneration
      && w.o.frames.current.value.view.frameIndex <= w.produced
  }

  ghost predicate Safe(w: World) {
    && Inv(Model(w.o.frames, w.h)) && RingOk(w.o) && ReadsOk(w) && HandlesOk(w.o) && DrawnOk(w)
  }

  // ---- what each kind of call leaves alone -----------------------------------------------------

  // Same generations by number, same ring.
  predicate SameRings(s: State, t: State) {
    && |t.gens| == |s.gens| && t.ring == s.ring
    && forall i | 0 <= i < |s.gens| :: t.gens[i].id == s.gens[i].id
  }

  lemma SettleFrame(s: State, f: Frame)
    requires Sound(s) && f.owner < |s.gens| && f.view.sharedSlot < MAX_SLOTS
    ensures SameRings(s, Settle(s, f))
    ensures Settle(s, f) == s.(gens := Settle(s, f).gens)
  {}

  lemma DropFrame(s: State)
    requires Sound(s)
    ensures SameRings(s, DropPending(s)) && DropPending(s) == s.(gens := DropPending(s).gens, pending := None)
    ensures SameRings(s, DropCurrent(s)) && DropCurrent(s) == s.(gens := DropCurrent(s).gens, current := None)
  {
    if s.pending.Some? {
      assert s.pending.value in Held(s) && Held(s.(pending := None)) <= Held(s);
      SettleFrame(s.(pending := None), s.pending.value);
    }
    if s.current.Some? {
      assert s.current.value in Held(s) && Held(s.(current := None)) <= Held(s);
      SettleFrame(s.(current := None), s.current.value);
    }
  }

  lemma InvalidateFrame(s: State)
    requires Sound(s)
    ensures var t := Invalidate(s);
            SameRings(s, t) && t == s.(gens := t.gens, pending := None, current := None, latest := None)
  {
    hide DropPending, DropCurrent, Sound;
    DropFrame(s);
    DropFrame(DropPending(s));
  }

  lemma ReplaceFrame(s: State, f: Frame)
    requires Sound(s) && f.owner < |s.gens| && f.view.sharedSlot < s.gens[f.owner].slotCount
    ensures var t := ReplacePending(s, f); SameRings(s, t) && t == s.(gens := t.gens, pending := Some(f))
  {
    if s.pending.Some? {
      assert Held(s.(pending := Some(f))) <= Held(s) + {f} && s.pending.value in Held(s);
      SettleFrame(s.(pending := Some(f)), s.pending.value);
    }
  }

  lemma PromoteFrame(s: State)
    requires Sound(s) && s.pending.Some?
    ensures var t := Promote(s);
            SameRings(s, t) && t == s.(gens := t.gens, current := s.pending, pending := None, preparation := SharedFrameModel.Preparation.Idle)
  {
    if s.current.Some? {
      var u := s.(current := s.pending, pending := None, preparation := SharedFrameModel.Preparation.Idle);
      assert Held(u) <= Held(s) && s.current.value in Held(s);
      SettleFrame(u, s.current.value);
    }
  }

  // Selection calls keep the reads and the rings; the current frame stays or is dropped.
  lemma SelectFrame(m: Model, e: Event)
    requires Sound(m.s) && |m.h.consumed| == |m.h.acked| == MAX_SLOTS && SelectionEvent(e) && ValidEvent(e)
    ensures var t := Step(m, e).s;
            SameRings(m.s, t) && t.gpuReads == m.s.gpuReads && (t.current == m.s.current || t.current == None)
  {
    hide DropPending, DropCurrent, Invalidate, ReplacePending, Sound;
    match e
    case ESetPresentation(_, _) => DropFrame(m.s); DropFrame(DropPending(m.s));
    case EBeginPreparation =>
      assert Sound(m.s.(preparation := Rendering)) by { SoundFlags(m.s, m.s.(preparation := Rendering)); }
      DropFrame(m.s.(preparation := Rendering));
    case EEndPreparation(_) => DropFrame(m.s);
    case ESetVisible(visible) =>
      assert Sound(m.s.(visible := visible)) by { SoundFlags(m.s, m.s.(visible := visible)); }
      InvalidateFrame(m.s.(visible := visible));
    case EPublish(slot, serial, width, height, epoch) => PublishFrame(m.s, e);
  }

  lemma SoundFlags(s: State, t: State)
    requires Sound(s) && t == s.(preparation := t.preparation, visible := t.visible)
    ensures Sound(t)
  {
    assert Held(t) == Held(s);
  }

  lemma PublishFrame(s: State, e: Event)
    requires Sound(s) && e.EPublish?
    ensures var t := Publish(s, e.slot, e.serial, e.width, e.height, e.frameEpoch).1;
            SameRings(s, t) && t.gpuReads == s.gpuReads && t.current == s.current
  {
    hide ReplacePending, SlotHeld;
    if Publishable(s, e.slot, e.serial) {
      if Wanted(s, e.width, e.height, e.frameEpoch) {
        var f := Frame(View(e.width, e.height, s.gens[s.ring.value].id, e.serial, e.slot), s.ring.value);
        PublishAccepted(s, e, f);
        ReplaceFrame(s.(gens := s.gens[s.ring.value := s.gens[s.ring.value].(lastSerial := e.serial)]), f);
      } else {
        PublishDiscarded(s, e);
      }
    }
  }

  lemma {:induction false} EraseFrame(s: State, i: nat, queue: nat, value: nat)
    requires Sound(s) && i <= |s.gpuReads|
    ensures SameRings(s, EraseDone(s, i, queue, value))
    decreases |s.gpuReads| - i
  {
    hide DropRead, Sound;
    if i < |s.gpuReads| {
      if Done(s.gpuReads[i], queue, value) {
        DropReadFrame(s, i);
        EraseFrame(DropRead(s, i), i, queue, value);
      } else {
        EraseFrame(s, i + 1, queue, value);
      }
    }
  }

  lemma DropReadFrame(s: State, i: nat)
    requires Sound(s) && i < |s.gpuReads|
    ensures SameRings(s, DropRead(s, i)) && |DropRead(s, i).gpuReads| == |s.gpuReads| - 1
  {
    var t := s.(gpuReads := s.gpuReads[..i] + s.gpuReads[i + 1..]);
    assert s.gpuReads[i].frame in Held(s) && Held(t) <= Held(s);
    SettleFrame(t, s.gpuReads[i].frame);
  }

  lemma CompletedFrame(s: State, queue: nat, value: nat)
    requires Sound(s)
    ensures var t := Completed(s, queue, value);
            SameRings(s, t) && t == s.(gens := t.gens, gpuReads := t.gpuReads)
  {
    CompletedKeepsSelection(s, queue, value);
    if queue != 0 && value != UINT64_MAX { EraseFrame(s, 0, queue, value); }
  }

  // Polling removes exactly the reads some timeline's fence has reached.
  predicate Reached(r: Read, timelines: seq<Timeline>, values: map<nat, nat>) {
    exists t | t in timelines :: t.queue != 0 && ValueOf(values, t.queue) != UINT64_MAX && Done(r, t.queue, ValueOf(values, t.queue))
  }

  lemma {:induction false} PollReads(s: State, timelines: seq<Timeline>, values: map<nat, nat>, r: Read)
    requires Sound(s)
    ensures r in PollFrom(s, timelines, values).gpuReads <==> r in s.gpuReads && !Reached(r, timelines, values)
    decreases timelines
  {
    if timelines != [] {
      var q := timelines[0].queue;
      ReadsLeaveOnlyWhenComplete(s, q, ValueOf(values, q), r);
      PollReads(Completed(s, q, ValueOf(values, q)), timelines[1..], values, r);
      assert timelines == [timelines[0]] + timelines[1..];
    }
  }

  lemma {:induction false} PollFrame(m: Model, timelines: seq<Timeline>, values: map<nat, nat>)
    requires Sound(m.s) && Inv(m)
    ensures var t := PollFrom(m.s, timelines, values);
            Inv(Model(t, m.h)) && SameRings(m.s, t) && t == m.s.(gens := t.gens, gpuReads := t.gpuReads)
    decreases timelines
  {
    hide Completed, Inv;
    if timelines != [] {
      var q := timelines[0].queue;
      StepKeeps(m, ECompleted(q, ValueOf(values, q)));
      CompletedFrame(m.s, q, ValueOf(values, q));
      PollFrame(Model(Completed(m.s, q, ValueOf(values, q)), m.h), timelines[1..], values);
    }
  }

  // ---- every action keeps the invariant --------------------------------------------------------

  lemma SafeIsSound(w: World)
    requires Safe(w)
    ensures Sound(w.o.frames) && |w.h.consumed| == |w.h.acked| == MAX_SLOTS
  {}

  lemma BeginRingFrame(s: State, ring: Ring)
    requires Sound(s) && ring.slotCount <= MAX_SLOTS
    ensures var t := BeginRing(s, ring);
            && t.gpuReads == s.gpuReads && t.current == None && t.ring == Some(|s.gens|)
            && |t.gens| == |s.gens| + 1 && t.gens[|s.gens|].id == ring.generation
            && forall i | 0 <= i < |s.gens| :: t.gens[i].id == s.gens[i].id
  {
    hide Invalidate;
    InvalidateFrame(s);
  }

  // What is said about reads depends on the reads, the uses, the timelines and the imported ring.
  lemma SameReads(w: World, v: World)
    requires ReadsOk(w) && v.o.frames.gpuReads == w.o.frames.gpuReads && v.o.hasRecorded == w.o.hasRecorded
    requires v.o.activeGeneration == w.o.activeGeneration && v.o.timelines == w.o.timelines
    requires v.uses == w.uses && v.done == w.done
    ensures ReadsOk(v)
  {
    forall r | r in v.o.frames.gpuReads ensures ReadOk(v.o, r) { assert ReadOk(w.o, r); }
  }

  lemma AnnounceSafe(w: World, slotCount: nat, width: nat, height: nat)
    requires Safe(w) && slotCount <= MAX_SLOTS
    ensures Safe(Next(w, Announce(slotCount, width, height)))
  {
    hide Inv, BeginRing, ReadsOk;
    SafeIsSound(w);
    var ring := Ring(w.o.nextGeneration + 1, slotCount, width, height);
    BeginRingKeeps(Model(w.o.frames, w.h), ring);
    BeginRingFrame(w.o.frames, ring);
    SameReads(w, Next(w, Announce(slotCount, width, height)));
  }

  lemma HostGoneSafe(w: World)
    requires Safe(w)
    ensures Safe(Next(w, HostGone))
  {
    hide Inv, Invalidate, ReadsOk;
    SafeIsSound(w);
    DisconnectKeeps(Model(w.o.frames, w.h));
    InvalidateFrame(w.o.frames);
    SameReads(w, Next(w, HostGone));
  }

  // An action that keeps the reads, the rings and the compositor side keeps what is said about them.
  lemma SameReadsSafe(w: World, v: World)
    requires Safe(w) && Inv(Model(v.o.frames, v.h))
    requires SameRings(w.o.frames, v.o.frames) && v.o.frames.gpuReads == w.o.frames.gpuReads
    requires v.o.frames.current == w.o.frames.current || v.o.frames.current == None
    requires v == w.(o := w.o.(frames := v.o.frames), h := v.h)
    ensures Safe(v)
  {
    hide Inv, ReadsOk;
    SameReads(w, v);
  }

  lemma SelectSafe(w: World, e: Event)
    requires Safe(w) && SelectionEvent(e)
    ensures Safe(Next(w, Select(e)))
  {
    var m := Model(w.o.frames, w.h);
    StepKeeps(m, e);
    SelectFrame(m, e);
    SameReadsSafe(w, Next(w, Select(e)));
  }

  lemma AcknowledgeSafe(w: World)
    requires Safe(w)
    ensures Safe(Next(w, Acknowledge))
  {
    StepKeeps(Model(w.o.frames, w.h), ETakeReleases);
    SameReadsSafe(w, Next(w, Acknowledge));
  }

  // A ring waiting to be imported has shown nothing yet.
  lemma PendingRingShowsNothing(w: World)
    requires Safe(w) && w.o.pendingRing.Some?
    ensures w.o.frames.current == None
  {
    forall f | f in Held(w.o.frames) && w.o.frames.ring == Some(f.owner)
      ensures f.view.ringGeneration == w.o.nextGeneration
    {
      assert FrameOk(w.o.frames, f);
    }
    assert OptionSet(w.o.frames.current) <= Held(w.o.frames);
  }

  lemma AdoptSafe(w: World, imported: bool, fenceValue: nat)
    requires Safe(w)
    ensures Safe(Next(w, Adopt(imported, fenceValue)))
  {
    var v := Next(w, Adopt(imported, fenceValue));
    assert v.o.frames == w.o.frames;
    if w.o.frames.gpuReads == [] && w.o.pendingRing.Some? {
      PendingRingShowsNothing(w);
    } else {
      assert v.o == w.o;
    }
  }

  lemma DrawSafe(w: World, list: nat, pipeline: bool)
    requires Safe(w)
    ensures Safe(Next(w, Draw(list, pipeline)))
  {
    hide Inv, Record;
    SafeIsSound(w);
    var produced := if w.removed then UINT64_MAX else w.produced;
    var e := ERecord(list, w.o.activeGeneration, produced);
    var s := w.o.frames;
    if w.o.activeGeneration != 0 && produced != UINT64_MAX && pipeline {
      if Draws(s, list, w.o.activeGeneration, produced) {
        StepKeeps(Model(s, w.h), e);
        RecordReads(s, e, DrawnFrame(w, produced));
        DrawnReadsSafe(w, Next(w, Draw(list, pipeline)), DrawnFrame(w, produced), list);
      } else {
        RecordNothing(s, e);
        assert Next(w, Draw(list, pipeline)) == w by { assert w.o.hasRecorded == HasRecorded(s); }
      }
    } else {
      assert Next(w, Draw(list, pipeline)) == w;
    }
  }

  lemma RecordNothing(s: State, e: Event)
    requires Sound(s) && e.ERecord? && !Draws(s, e.list, e.activeGeneration, e.produced)
    ensures Record(s, e.list, e.activeGeneration, e.produced) == (None, s)
  {}

  // A draw adds at most its own read and may promote the pending frame.
  lemma RecordReads(s: State, e: Event, f: Frame)
    requires Sound(s) && e.ERecord? && Draws(s, e.list, e.activeGeneration, e.produced)
    requires Selected(s, e.activeGeneration, e.produced) == Some(f)
    ensures var (view, t) := Record(s, e.list, e.activeGeneration, e.produced);
            && view == Some(f.view) && SameRings(s, t) && t.current == Some(f)
            && t.gpuReads == if HasRead(s.gpuReads, e.list, f) then s.gpuReads else s.gpuReads + [Read(f, e.list, 0, 0)]
  {
    hide Promote;
    assert f in Held(s);
    var u := AddRead(s, e.list, f);
    if Promotes(s, e.activeGeneration, e.produced) { PromoteFrame(u); }
  }

  lemma DrawnReadsSafe(w: World, v: World, f: Frame, list: nat)
    requires Safe(w) && Inv(Model(v.o.frames, v.h)) && list != 0
    requires SameRings(w.o.frames, v.o.frames) && v.o.frames.current == Some(f)
    requires v.o.frames.gpuReads == if HasRead(w.o.frames.gpuReads, list, f) then w.o.frames.gpuReads
                                    else w.o.frames.gpuReads + [Read(f, list, 0, 0)]
    requires v == w.(o := w.o.(frames := v.o.frames, hasRecorded := HasRecorded(v.o.frames)), h := v.h,
                     uses := w.uses + {Read(f, list, 0, 0)})
    requires f.view.ringGeneration == w.o.activeGeneration != 0 && f.view.frameIndex <= w.produced
    ensures Safe(v)
  {
    hide Inv;
    forall r | r in v.o.frames.gpuReads ensures ReadOk(v.o, r) { assert r in w.o.frames.gpuReads ==> ReadOk(w.o, r); }
    assert Read(f, list, 0, 0) in v.o.frames.gpuReads by {
      if HasRead(w.o.frames.gpuReads, list, f) {
        var r :| r in w.o.frames.gpuReads && r.list == list && r.frame == f;
        assert ReadOk(w.o, r);
      } else {
        assert v.o.frames.gpuReads[|w.o.frames.gpuReads|] == Read(f, list, 0, 0);
      }
    }
  }

  lemma {:induction false} NextValueAdvance(timelines: seq<Timeline>, queue: nat, q: nat)
    ensures NextValue(Advance(timelines, queue), q) == NextValue(timelines, q) + if q == queue then 1 else 0
  {
    if timelines != [] && timelines[0].queue != queue { NextValueAdvance(timelines[1..], queue, q); }
  }

  lemma {:induction false} NextValuePositive(timelines: seq<Timeline>, q: nat)
    requires forall t | t in timelines :: t.nextValue > 0
    ensures NextValue(timelines, q) > 0
  {
    if timelines != [] { NextValuePositive(timelines[1..], q); }
  }

  lemma {:induction false} AdvancePositive(timelines: seq<Timeline>, queue: nat)
    requires forall t | t in timelines :: t.nextValue > 0
    ensures forall t | t in Advance(timelines, queue) :: t.nextValue > 0
  {
    if timelines != [] { AdvancePositive(timelines[1..], queue); }
  }

  // Polling never forgets a draw the GPU may still execute.
  lemma PollCoversUses(w: World, u: Read)
    requires Sound(w.o.frames) && ReadsOk(w) && u in w.uses
    ensures u in PollFrom(w.o.frames, w.o.timelines, FenceValues(w)).gpuReads
  {
    PollReads(w.o.frames, w.o.timelines, FenceValues(w), u);
    assert ReadOk(w.o, u);
  }

  lemma PollSafe(w: World)
    requires Safe(w)
    ensures Safe(Next(w, PollTick))
  {
    hide Inv;
    SafeIsSound(w);
    var v := Next(w, PollTick);
    PollFrame(Model(w.o.frames, w.h), w.o.timelines, FenceValues(w));
    forall r | r in v.o.frames.gpuReads ensures r in w.o.frames.gpuReads && ReadOk(v.o, r) {
      PollReads(w.o.frames, w.o.timelines, FenceValues(w), r);
      assert ReadOk(w.o, r);
    }
    forall r | r in w.o.frames.gpuReads && r.list != 0 ensures r in v.o.frames.gpuReads {
      PollReads(w.o.frames, w.o.timelines, FenceValues(w), r);
    }
    forall u | u in w.uses ensures u in v.o.frames.gpuReads { PollCoversUses(w, u); }
  }

  // Stamping a batch of lists with a queue and a value its fence has not reached.
  lemma StampReads(w: World, v: World, lists: set<nat>, queue: nat, value: nat)
    requires ReadsOk(w)
    requires queue != 0 ==> value == NextValue(w.o.timelines, queue) < NextValue(v.o.timelines, queue)
    requires forall q :: NextValue(w.o.timelines, q) <= NextValue(v.o.timelines, q)
    requires forall t | t in v.o.timelines :: t.nextValue > 0
    requires v.o.frames.gpuReads == SubmitAll(w.o.frames.gpuReads, lists, queue, value)
    requires v.o.activeGeneration == w.o.activeGeneration && v.o.hasRecorded == HasRecorded(v.o.frames)
    requires v.uses == StampAll(w.uses, lists, queue, value) && v.done == w.done
    ensures ReadsOk(v)
  {
    hide NextValue, ValueOf, HasRecorded, SharedFrameModel.Submit, ReadOk;
    var before, after := w.o.frames.gpuReads, v.o.frames.gpuReads;
    forall r | r in after ensures ReadOk(v.o, r) {
      var i :| 0 <= i < |after| && after[i] == r;
      assert before[i] in before;
      StampedRead(w, v, before[i], lists, queue, value);
    }
    forall u | u in v.uses
      ensures u in after && (u.list == 0 && u.queue != 0 ==> u.completion > ValueOf(v.done, u.queue))
    {
      var u0 :| u0 in w.uses && u == SharedFrameModel.Submit(u0, lists, queue, value);
      var i :| 0 <= i < |before| && before[i] == u0;
      assert after[i] == u;
      StampedUse(w, u0, lists, queue, value);
    }
    DoneBefore(w, v);
  }

  lemma StampedRead(w: World, v: World, r: Read, lists: set<nat>, queue: nat, value: nat)
    requires ReadOk(w.o, r) && v.o.activeGeneration == w.o.activeGeneration
    requires queue != 0 ==> value == NextValue(w.o.timelines, queue) < NextValue(v.o.timelines, queue)
    requires forall q :: NextValue(w.o.timelines, q) <= NextValue(v.o.timelines, q)
    requires forall t | t in w.o.timelines :: t.nextValue > 0
    ensures ReadOk(v.o, SharedFrameModel.Submit(r, lists, queue, value))
  {
    hide NextValue;
    NextValuePositive(w.o.timelines, queue);
  }

  // A stamped draw's value is not yet reached.
  lemma StampedUse(w: World, u: Read, lists: set<nat>, queue: nat, value: nat)
    requires (queue != 0 ==> value == NextValue(w.o.timelines, queue)) && forall q | q in w.done :: w.done[q] < NextValue(w.o.timelines, q)
    requires forall t | t in w.o.timelines :: t.nextValue > 0
    requires u.list == 0 && u.queue != 0 ==> u.completion > ValueOf(w.done, u.queue)
    ensures var r := SharedFrameModel.Submit(u, lists, queue, value); r.list == 0 && r.queue != 0 ==> r.completion > ValueOf(w.done, r.queue)
  {
    hide NextValue;
    NextValuePositive(w.o.timelines, queue);
  }

  lemma DoneBefore(w: World, v: World)
    requires v.done == w.done && (forall q | q in w.done :: w.done[q] < NextValue(w.o.timelines, q))
    requires forall q :: NextValue(w.o.timelines, q) <= NextValue(v.o.timelines, q)
    ensures forall q | q in v.done :: v.done[q] < NextValue(v.o.timelines, q)
  {
    hide NextValue;
    forall q | q in v.done ensures v.done[q] < NextValue(v.o.timelines, q) {
      assert w.done[q] < NextValue(w.o.timelines, q) <= NextValue(v.o.timelines, q);
    }
  }

  lemma SubmitSafe(w: World, v: World, lists: set<nat>, queue: nat, value: nat)
    requires Safe(w)
    requires queue != 0 ==> value == NextValue(w.o.timelines, queue) < NextValue(v.o.timelines, queue)
    requires forall q :: NextValue(w.o.timelines, q) <= NextValue(v.o.timelines, q)
    requires forall t | t in v.o.timelines :: t.nextValue > 0
    requires Ready(w.o)
    requires v == w.(o := OverlayModel.Submit(w.o.(timelines := v.o.timelines), lists, queue, value),
                     uses := StampAll(w.uses, lists, queue, value))
    ensures Safe(v)
  {
    hide Inv, ReadsOk, HasRecorded, Submitted, HandlesOk, StampAll, SubmitAll, NextValue, OverlayModel.Submit, RingOk;
    SafeIsSound(w);
    SubmitFields(w.o.(timelines := v.o.timelines), lists, queue, value);
    SubmittedKeeps(Model(w.o.frames, w.h), lists, queue, value);
    StampReads(w, v, lists, queue, value);
    assert HandlesOk(v.o) by { SameHandles(w.o, v.o); }
    assert RingOk(v.o) by { SameRingOk(w.o, v.o); }
  }

  lemma SubmitFields(o: Overlay, lists: set<nat>, queue: nat, value: nat)
    requires Ready(o)
    ensures var p := OverlayModel.Submit(o, lists, queue, value);
            && p == o.(frames := Submitted(o.frames, lists, queue, value), hasRecorded := HasRecorded(p.frames))
            && p.frames == o.frames.(gpuReads := SubmitAll(o.frames.gpuReads, lists, queue, value))
  {}

  lemma SameRingOk(o: Overlay, p: Overlay)
    requires RingOk(o) && p.frames.gens == o.frames.gens && p.frames.ring == o.frames.ring
    requires p.nextGeneration == o.nextGeneration && p.pendingRing == o.pendingRing && p.activeGeneration == o.activeGeneration
    ensures RingOk(p)
  {}

  lemma SameHandles(o: Overlay, p: Overlay)
    requires HandlesOk(o) && p.closed == o.closed && p.nextGeneration == o.nextGeneration && p.pendingRing == o.pendingRing
    ensures HandlesOk(p)
  {}

  lemma ExecuteSafe(w: World, queue: nat, lists: set<nat>, created: bool, signalled: bool)
    requires Safe(w)
    ensures Safe(Next(w, Execute(queue, lists, created, signalled)))
  {
    hide Safe, Poll, Submitted, StampAll, HasRecordedIn, Advance, NextValue;
    SafeIsSound(w);
    var v := Next(w, Execute(queue, lists, created, signalled));
    if queue != 0 && lists != {} && w.o.hasRecorded {
      PollSafe(w);
      var p := Next(w, PollTick);
      assert p.o == Poll(w.o, FenceValues(w)) && p == w.(o := p.o);
      PolledFields(w.o, FenceValues(w));
      if !HasRecordedIn(p.o.frames, lists) {
        UnlistedUses(p, lists);
        assert v == p;
      } else if !HasTimeline(w.o.timelines, queue) && !created {
        TimelinesPositive(p);
        SubmitSafe(p, v, lists, 0, 0);
      } else {
        TimelinesPositive(p);
        forall q ensures NextValue(p.o.timelines, q) <= NextValue(Advance(p.o.timelines, queue), q) { NextValueAdvance(p.o.timelines, queue, q); }
        NextValueAdvance(p.o.timelines, queue, queue);
        AdvancePositive(p.o.timelines, queue);
        SubmitSafe(p, v, lists, if signalled then queue else 0, NextValue(p.o.timelines, queue));
      }
    } else {
      assert v == w;
    }
  }

  lemma PolledFields(o: Overlay, values: map<nat, nat>)
    requires Ready(o)
    ensures Poll(o, values) == o.(frames := Poll(o, values).frames)
  {}

  lemma TimelinesPositive(w: World)
    requires Safe(w)
    ensures forall t | t in w.o.timelines :: t.nextValue > 0
  {}

  lemma UnlistedUses(w: World, lists: set<nat>)
    requires Safe(w) && !HasRecordedIn(w.o.frames, lists)
    ensures forall q: nat, value: nat :: StampAll(w.uses, lists, q, value) == w.uses
  {
    forall q: nat, value: nat ensures StampAll(w.uses, lists, q, value) == w.uses {
      forall u | u in w.uses ensures SharedFrameModel.Submit(u, lists, q, value) == u { assert u in w.o.frames.gpuReads; }
    }
  }

  lemma GpuSafe(w: World, queue: nat, value: nat)
    requires Safe(w) && Possible(w, GpuReaches(queue, value))
    ensures Safe(Next(w, GpuReaches(queue, value)))
  {
    hide Inv;
  }

  lemma NextSafe(w: World, a: Action)
    requires Safe(w) && Ready(w.o) && |w.h.consumed| == |w.h.acked| == MAX_SLOTS && Possible(w, a)
    ensures Safe(Next(w, a))
  {
    hide Inv;
    match a
    case Announce(slotCount, width, height) => AnnounceSafe(w, slotCount, width, height);
    case HostGone => HostGoneSafe(w);
    case Select(e) => SelectSafe(w, e);
    case Adopt(imported, fenceValue) => AdoptSafe(w, imported, fenceValue);
    case Draw(list, pipeline) => DrawSafe(w, list, pipeline);
    case Execute(queue, lists, created, signalled) => ExecuteSafe(w, queue, lists, created, signalled);
    case PollTick => PollSafe(w);
    case Acknowledge => AcknowledgeSafe(w);
    case GpuReaches(queue, value) => GpuSafe(w, queue, value);
    case BrowserProduces(_) =>
    case DeviceRemoved =>
  }

  // ---- what every reachable world guarantees ----------------------------------------------------

  predicate Enabled(w: World, a: Action) {
    Ready(w.o) && |w.h.consumed| == |w.h.acked| == MAX_SLOTS && Possible(w, a)
  }

  predicate Leads(w: World, a: Action, v: World) {
    Enabled(w, a) && v == Next(w, a)
  }

  // A run from start-up: `worlds[i + 1]` follows from `worlds[i]` by the i-th action.
  predicate Execution(worlds: seq<World>, actions: seq<Action>) {
    && |worlds| == |actions| + 1 && worlds[0] == Boot
    && forall i {:trigger actions[i]} | 0 <= i < |actions| :: Leads(worlds[i], actions[i], worlds[i + 1])
  }

  lemma {:induction false} ExecutionSafe(worlds: seq<World>, actions: seq<Action>, n: nat)
    requires Execution(worlds, actions) && n <= |actions|
    ensures Safe(worlds[n])
  {
    hide Safe, Next;
    if n == 0 {
      BootIsSafe();
    } else {
      ExecutionSafe(worlds, actions, n - 1);
      assert Leads(worlds[n - 1], actions[n - 1], worlds[n]);
      NextSafe(worlds[n - 1], actions[n - 1]);
    }
  }

  lemma BootIsSafe()
    ensures Safe(Boot)
  {
    assert Held(Initial) == {};
  }

  // The protocol's purpose: a slot reported to the browser is never one the GPU may still read. Whatever
  // draw is recorded or in flight on that slot of the current ring carries a newer serial.
  lemma AcknowledgedSlotIsFreeOnTheGpu(worlds: seq<World>, actions: seq<Action>, n: nat, slot: nat, u: Read)
    requires Execution(worlds, actions) && n <= |actions| && slot < MAX_SLOTS
    requires u in worlds[n].uses && OnSlot(worlds[n].o.frames, u.frame, slot)
    ensures Sound(worlds[n].o.frames) && Reported(worlds[n].o.frames)[slot] < u.frame.view.frameIndex
    ensures |worlds[n].h.acked| == MAX_SLOTS && worlds[n].h.acked[slot] < u.frame.view.frameIndex
  {
    ExecutionSafe(worlds, actions, n);
    var w := worlds[n];
    assert u in w.o.frames.gpuReads && u.frame in Held(w.o.frames);
    assert Account(w.o.frames, Held(w.o.frames), w.h, slot);
  }

  // Every draw outstanding at any time refers to the ring whose textures are imported, and those textures
  // are replaced only by an adoption, with no draw recorded or in flight.
  lemma RingIsReplacedOnlyWhenIdle(worlds: seq<World>, actions: seq<Action>, n: nat)
    requires Execution(worlds, actions) && n < |actions|
    ensures var w, v := worlds[n], worlds[n + 1];
            && (forall u | u in w.uses :: u.frame.view.ringGeneration == w.o.activeGeneration && w.o.activeGeneration != 0)
            && (v.o.activeGeneration != w.o.activeGeneration ==>
                  actions[n].Adopt? && w.uses == {} && w.o.frames.gpuReads == [])
  {
    hide Safe, Next;
    ExecutionSafe(worlds, actions, n);
    UsesAreImported(worlds[n]);
    assert Leads(worlds[n], actions[n], worlds[n + 1]);
    ActiveGenerationChanges(worlds[n], actions[n]);
  }

  lemma UsesAreImported(w: World)
    requires Safe(w)
    ensures forall u | u in w.uses :: u.frame.view.ringGeneration == w.o.activeGeneration && w.o.activeGeneration != 0
    ensures w.o.frames.gpuReads == [] ==> w.uses == {}
  {
    hide Inv;
    forall u | u in w.uses ensures u.frame.view.ringGeneration == w.o.activeGeneration && w.o.activeGeneration != 0 {
      assert ReadOk(w.o, u);
    }
  }

  lemma ActiveGenerationChanges(w: World, a: Action)
    requires Enabled(w, a)
    ensures Next(w, a).o.activeGeneration != w.o.activeGeneration ==> a.Adopt? && w.o.frames.gpuReads == []
  {
    hide Sound, Step, Record, Submitted, PollFrom, BeginRing, SharedFrameModel.Disconnect, TakeReleases, HasRecordedIn;
  }

  // After an announcement no frame of an older ring is drawn again, and none of the new ring before it is imported.
  lemma OnlyTheNewestRingIsDrawn(worlds: seq<World>, actions: seq<Action>, n: nat, u: Read)
    requires Execution(worlds, actions) && n < |actions|
    requires u in worlds[n + 1].uses && u.list != 0 && u !in worlds[n].uses
    ensures var w := worlds[n];
            && w.o.pendingRing == None && u.frame.view.ringGeneration == w.o.nextGeneration == w.o.activeGeneration
            && u.frame.view.frameIndex <= w.produced && !w.removed
  {
    hide Safe, Next, Record;
    var w, a := worlds[n], actions[n];
    ExecutionSafe(worlds, actions, n);
    assert Leads(w, a, worlds[n + 1]);
    NewUseIsADraw(w, a, u);
    DrawnFrameIsNewest(w, a.list, a.pipeline, if w.removed then UINT64_MAX else w.produced);
  }

  lemma NewUseIsADraw(w: World, a: Action, u: Read)
    requires Enabled(w, a) && u in Next(w, a).uses && u.list != 0 && u !in w.uses
    ensures a.Draw?
    ensures var produced := if w.removed then UINT64_MAX else w.produced;
            RecordOverlay(w.o, a.list, produced, a.pipeline).0.Some? && u.frame == DrawnFrame(w, produced)
  {
    hide Sound, Step, Record, Submitted, PollFrom, BeginRing, SharedFrameModel.Disconnect, TakeReleases, HasRecordedIn;
  }

  lemma DrawnFrameIsNewest(w: World, list: nat, pipeline: bool, produced: nat)
    requires Safe(w) && Ready(w.o) && produced == (if w.removed then UINT64_MAX else w.produced)
    requires RecordOverlay(w.o, list, produced, pipeline).0.Some?
    ensures w.o.pendingRing == None && produced != UINT64_MAX
    ensures var f := DrawnFrame(w, produced);
            f.view.ringGeneration == w.o.nextGeneration == w.o.activeGeneration && f.view.frameIndex <= produced
  {
    var s := w.o.frames;
    var f := DrawnFrame(w, produced);
    assert f in Held(s) && FrameOk(s, f) && s.ring == Some(f.owner);
    assert s.gens[f.owner].id == f.owner + 1;
  }
}
