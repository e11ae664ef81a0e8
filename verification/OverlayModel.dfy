// The consumer (src/Render/SharedFrameConsumer.cpp and .h) and the ring and queue steps of the
// compositor (src/Composite/D3D12Compositor.cpp) as functions on values.
module OverlayModel {
  import opened Wrappers
  import opened SharedFrameModel

  // One completion fence per submission queue.
  datatype Timeline = Timeline(queue: nat, nextValue: nat)

  // `closed` counts, per generation, how often the announced ring handles were closed. The compositor
  // holds the textures of `activeGeneration`; 0 stands for no imported ring.
  datatype Overlay = Overlay(
    frames: State, hasRecorded: bool,
    pendingRing: Option<Ring>, nextGeneration: nat, closed: multiset<nat>,
    activeGeneration: nat, timelines: seq<Timeline>)

  const Idle := Overlay(SharedFrameModel.Initial, false, None, 0, multiset{}, 0, [])

  predicate Ready(o: Overlay) {
    Sound(o.frames)
  }

  function ClosePending(o: Overlay): multiset<nat> {
    if o.pendingRing.Some? then o.closed[o.pendingRing.value.generation := o.closed[o.pendingRing.value.generation] + 1] else o.closed
  }

  function AnnounceRing(o: Overlay, slotCount: nat, width: nat, height: nat): (p: Overlay)
    requires Ready(o) && slotCount <= MAX_SLOTS
    ensures Ready(p)
  {
    var ring := Ring(o.nextGeneration + 1, slotCount, width, height);
    o.(closed := ClosePending(o), nextGeneration := o.nextGeneration + 1,
       frames := BeginRing(o.frames, ring), pendingRing := Some(ring))
  }

  function Disconnect(o: Overlay): (p: Overlay)
    requires Ready(o)
    ensures Ready(p)
  {
    o.(frames := SharedFrameModel.Disconnect(o.frames), closed := ClosePending(o), pendingRing := None)
  }

  // TakeRingIfIdle: the pending ring moves to the caller only when no read is outstanding.
  function TakeRingIfIdle(o: Overlay): (Option<Ring>, Overlay) {
    if o.frames.gpuReads != [] then (None, o) else (o.pendingRing, o.(pendingRing := None))
  }

  // EnsureSharedRing, under the draw lock; `imported` is the outcome of opening the shared handles.
  function EnsureSharedRing(o: Overlay, imported: bool): Overlay {
    var (ring, taken) := TakeRingIfIdle(o);
    if ring.None? then taken else
    var closed := taken.closed[ring.value.generation := taken.closed[ring.value.generation] + 1];
    taken.(closed := closed,
           activeGeneration := if imported && 0 < ring.value.slotCount <= MAX_SLOTS then ring.value.generation else 0)
  }

  // RecordOverlay: `produced` is the produce fence's value; `pipeline` says a pipeline state exists.
  function RecordOverlay(o: Overlay, list: nat, produced: nat, pipeline: bool): (r: (Option<View>, Overlay))
    requires Ready(o)
    ensures Ready(r.1)
  {
    if o.activeGeneration == 0 || produced == UINT64_MAX || !pipeline then (None, o) else
    var (view, frames) := Record(o.frames, list, o.activeGeneration, produced);
    (view, o.(frames := frames, hasRecorded := HasRecorded(frames)))
  }

  function ValueOf(values: map<nat, nat>, queue: nat): nat {
    if queue in values then values[queue] else 0
  }

  function PollFrom(s: State, timelines: seq<Timeline>, values: map<nat, nat>): (t: State)
    requires Sound(s)
    ensures Sound(t)
    decreases timelines
  {
    if timelines == [] then s
    else PollFrom(Completed(s, timelines[0].queue, ValueOf(values, timelines[0].queue)), timelines[1..], values)
  }

  // PollCompletions; `values` are the fences' completed values.
  function Poll(o: Overlay, values: map<nat, nat>): (p: Overlay)
    requires Ready(o)
    ensures Ready(p)
  {
    o.(frames := PollFrom(o.frames, o.timelines, values))
  }

  predicate HasTimeline(timelines: seq<Timeline>, queue: nat) {
    exists i | 0 <= i < |timelines| :: timelines[i].queue == queue
  }

  // The value the next signal on a queue will use: 1 for a queue without a timeline.
  function NextValue(timelines: seq<Timeline>, queue: nat): nat {
    if timelines == [] then 1
    else if timelines[0].queue == queue then timelines[0].nextValue
    else NextValue(timelines[1..], queue)
  }

  // find_if / push_back, then nextValue++ on the queue's timeline.
  function Advance(timelines: seq<Timeline>, queue: nat): seq<Timeline> {
    if timelines == [] then [Timeline(queue, 2)]
    else if timelines[0].queue == queue then [timelines[0].(nextValue := timelines[0].nextValue + 1)] + timelines[1..]
    else [timelines[0]] + Advance(timelines[1..], queue)
  }

  // OnExecuted: `created` is the outcome of CreateFence when the queue needs one, `signalled` of Signal.
  function OnExecuted(o: Overlay, queue: nat, lists: set<nat>, values: map<nat, nat>, created: bool, signalled: bool): (p: Overlay)
    requires Ready(o)
    ensures Ready(p)
  {
    if queue == 0 || lists == {} || !o.hasRecorded then o else
    var polled := Poll(o, values);
    if !HasRecordedIn(polled.frames, lists) then polled
    else if !HasTimeline(o.timelines, queue) && !created then
      Submit(polled, lists, 0, 0)
    else
      Submit(polled.(timelines := Advance(o.timelines, queue)), lists,
             if signalled then queue else 0, NextValue(o.timelines, queue))
  }

  function Submit(o: Overlay, lists: set<nat>, queue: nat, value: nat): (p: Overlay)
    requires Ready(o)
    ensures Ready(p)
  {
    var frames := Submitted(o.frames, lists, queue, value);
    o.(frames := frames, hasRecorded := HasRecorded(frames))
  }
}
