// SharedFrameConsumer and the ring and queue half of D3D12Compositor as objects. The GPU and the
// shared handles are foreign: fence values and call outcomes arrive as parameters.
module OverlayObjects {
  import opened Wrappers
  import opened SharedFrameModel
  import opened SharedFrames
  import opened OverlayModel

  class SharedFrameConsumer {
    const state: SharedFrameState
    var hasRecorded: bool
    var pendingRing: Option<Ring>
    var nextGeneration: nat
    // How often the handles of each announced ring have been closed.
    ghost var closed: multiset<nat>

    ghost predicate Valid()
      reads this, state
    {
      state.Valid()
    }

    constructor ()
      ensures Valid() && fresh(state) && state.Abs() == SharedFrameModel.Initial
      ensures !hasRecorded && pendingRing == None && nextGeneration == 0 && closed == multiset{}
    {
      state := new SharedFrameState();
      hasRecorded, pendingRing, nextGeneration, closed := false, None, 0, multiset{};
    }

    method ClosePendingHandles()
      modifies this`closed
      ensures closed == if pendingRing.Some? then old(closed)[pendingRing.value.generation := old(closed)[pendingRing.value.generation] + 1]
                        else old(closed)
    {
      if pendingRing.Some? {
        closed := closed[pendingRing.value.generation := closed[pendingRing.value.generation] + 1];
      }
    }

    method AnnounceRing(slotCount: nat, width: nat, height: nat)
      requires Valid() && slotCount <= MAX_SLOTS
      modifies this, state
      ensures Valid() && hasRecorded == old(hasRecorded)
      ensures nextGeneration == old(nextGeneration) + 1
      ensures pendingRing == Some(Ring(nextGeneration, slotCount, width, height))
      ensures state.Abs() == BeginRing(old(state.Abs()), pendingRing.value)
      ensures closed == if old(pendingRing).Some? then old(closed)[old(pendingRing).value.generation := old(closed)[old(pendingRing).value.generation] + 1]
                        else old(closed)
    {
      ClosePendingHandles();
      nextGeneration := nextGeneration + 1;
      var ring := Ring(nextGeneration, slotCount, width, height);
      state.BeginRing(ring);
      pendingRing := Some(ring);
    }

    method Disconnect()
      requires Valid()
      modifies this, state
      ensures Valid() && hasRecorded == old(hasRecorded) && nextGeneration == old(nextGeneration) && pendingRing == None
      ensures state.Abs() == SharedFrameModel.Disconnect(old(state.Abs()))
      ensures closed == if old(pendingRing).Some? then old(closed)[old(pendingRing).value.generation := old(closed)[old(pendingRing).value.generation] + 1]
                        else old(closed)
    {
      state.Disconnect();
      ClosePendingHandles();
      pendingRing := None;
    }

    method TakeRingIfIdle() returns (ring: Option<Ring>)
      requires Valid()
      modifies this`pendingRing
      ensures Valid()
      ensures state.gpuReads != [] ==> ring == None && pendingRing == old(pendingRing)
      ensures state.gpuReads == [] ==> ring == old(pendingRing) && pendingRing == None
    {
      if |state.gpuReads| > 0 { return None; }
      ring := pendingRing;
      pendingRing := None;
    }

    method Record(list: nat, generation: nat, produced: nat) returns (view: Option<View>)
      requires Valid()
      modifies this`hasRecorded, state
      ensures Valid() && (view, state.Abs()) == SharedFrameModel.Record(old(state.Abs()), list, generation, produced)
      ensures hasRecorded <==> HasRecorded(state.Abs())
    {
      view := state.Record(list, generation, produced);
      hasRecorded := state.HasRecorded();
    }

    method Submitted(lists: set<nat>, queue: nat, value: nat)
      requires Valid()
      modifies this`hasRecorded, state
      ensures Valid() && state.Abs() == SharedFrameModel.Submitted(old(state.Abs()), lists, queue, value)
      ensures hasRecorded <==> HasRecorded(state.Abs())
    {
      state.Submitted(lists, queue, value);
      hasRecorded := state.HasRecorded();
    }
  }

  class Compositor {
    const frames: SharedFrameConsumer
    var activeGeneration: nat
    var timelines: seq<Timeline>

    ghost function Abs(): Overlay
      reads this, frames, frames.state
    {
      Overlay(frames.state.Abs(), frames.hasRecorded, frames.pendingRing, frames.nextGeneration, frames.closed,
              activeGeneration, timelines)
    }

    ghost predicate Valid()
      reads this, frames, frames.state
    {
      frames.Valid()
    }

    constructor (consumer: SharedFrameConsumer)
      ensures frames == consumer && activeGeneration == 0 && timelines == []
    {
      frames := consumer;
      activeGeneration, timelines := 0, [];
    }

    method PollCompletions(values: map<nat, nat>)
      requires Valid()
      modifies frames.state
      ensures Valid() && Abs() == Poll(old(Abs()), values)
    {
      hide SharedFrameModel.Completed;
      var i := 0;
      while i < |timelines|
        invariant i <= |timelines| && frames.state.Valid()
        invariant PollFrom(frames.state.Abs(), timelines[i..], values) == PollFrom(old(frames.state.Abs()), timelines, values)
      {
        frames.state.Completed(timelines[i].queue, ValueOf(values, timelines[i].queue));
        assert timelines[i..][1..] == timelines[i + 1..];
        i := i + 1;
      }
    }

    // The queue's timeline, created when it has none and CreateFence succeeds.
    method FindTimeline(queue: nat, created: bool) returns (index: int)
      modifies this`timelines
      ensures HasTimeline(old(timelines), queue) || created ==>
                && 0 <= index < |timelines| && timelines[index].nextValue == NextValue(old(timelines), queue)
                && timelines[index := timelines[index].(nextValue := timelines[index].nextValue + 1)] == Advance(old(timelines), queue)
      ensures !HasTimeline(old(timelines), queue) && !created ==> index < 0 && timelines == old(timelines)
    {
      index := 0;
      while index < |timelines| && timelines[index].queue != queue
        invariant 0 <= index <= |timelines| && timelines == old(timelines)
        invariant forall j | 0 <= j < index :: timelines[j].queue != queue
      {
        index := index + 1;
      }
      if index < |timelines| {
        AdvanceFound(timelines, queue, index);
      } else {
        AdvanceMissing(timelines, queue);
        if created {
          timelines := timelines + [Timeline(queue, 1)];
        } else {
          index := -1;
        }
      }
    }

    method OnExecuted(queue: nat, lists: set<nat>, values: map<nat, nat>, created: bool, signalled: bool)
      requires Valid()
      modifies this`timelines, frames`hasRecorded, frames.state
      ensures Valid() && Abs() == OverlayModel.OnExecuted(old(Abs()), queue, lists, values, created, signalled)
    {
      hide Poll, Submitted, HasRecorded, HasRecordedIn, Advance, NextValue, HasTimeline, Sound;
      if queue == 0 || lists == {} || !frames.hasRecorded { return; }
      PollCompletions(values);
      assert timelines == old(timelines) && frames.hasRecorded == old(frames.hasRecorded) by { PollFrame(old(Abs()), values); }
      var recorded := frames.state.HasRecordedIn(lists);
      if !recorded { return; }
      var index := FindTimeline(queue, created);
      var value := 0;
      if index >= 0 {
        value := timelines[index].nextValue;
        timelines := timelines[index := timelines[index].(nextValue := value + 1)];
      }
      frames.Submitted(lists, if index >= 0 && signalled then queue else 0, value);
    }

    method EnsureSharedRing(imported: bool)
      requires Valid()
      modifies this`activeGeneration, frames`pendingRing, frames`closed
      ensures Valid() && Abs() == OverlayModel.EnsureSharedRing(old(Abs()), imported)
    {
      var ring := frames.TakeRingIfIdle();
      if ring.None? { return; }
      activeGeneration := 0;
      frames.closed := frames.closed[ring.value.generation := frames.closed[ring.value.generation] + 1];
      if !(imported && 0 < ring.value.slotCount <= MAX_SLOTS) { return; }
      activeGeneration := ring.value.generation;
    }

    method RecordOverlay(list: nat, produced: nat, pipeline: bool) returns (view: Option<View>)
      requires Valid()
      modifies frames`hasRecorded, frames.state
      ensures Valid() && (view, Abs()) == OverlayModel.RecordOverlay(old(Abs()), list, produced, pipeline)
    {
      if activeGeneration == 0 || produced == UINT64_MAX || !pipeline { return None; }
      view := frames.Record(list, activeGeneration, produced);
    }
  }

  lemma {:induction false} AdvanceFound(timelines: seq<Timeline>, queue: nat, i: nat)
    requires i < |timelines| && timelines[i].queue == queue && forall j | 0 <= j < i :: timelines[j].queue != queue
    ensures NextValue(timelines, queue) == timelines[i].nextValue
    ensures Advance(timelines, queue) == timelines[i := timelines[i].(nextValue := timelines[i].nextValue + 1)]
  {
    if i > 0 { AdvanceFound(timelines[1..], queue, i - 1); }
  }

  lemma {:induction false} AdvanceMissing(timelines: seq<Timeline>, queue: nat)
    requires !HasTimeline(timelines, queue)
    ensures NextValue(timelines, queue) == 1
    ensures Advance(timelines, queue) == timelines + [Timeline(queue, 2)]
    ensures (timelines + [Timeline(queue, 1)])[|timelines| := Timeline(queue, 2)] == timelines + [Timeline(queue, 2)]
  {
    if timelines != [] {
      assert !HasTimeline(timelines[1..], queue) by {
        assert forall j | 0 <= j < |timelines[1..]| :: timelines[1..][j] == timelines[j + 1];
      }
      AdvanceMissing(timelines[1..], queue);
    }
  }

  lemma PollFrame(o: Overlay, values: map<nat, nat>)
    requires Ready(o)
    ensures Poll(o, values) == o.(frames := Poll(o, values).frames)
  {}
}
