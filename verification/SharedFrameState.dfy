// src/Render/SharedFrameState.h as it is written: selection pointers, a vector of reads, and a
// use count per frame (the shared_ptr control blocks). Every method is proved to reach the state
// SharedFrameModel gives for it, so counting references agrees with asking who still holds a frame.
module SharedFrames {
  import opened Wrappers
  import opened SharedFrameModel

  function ReadUses(gpuReads: seq<Read>, f: Frame): nat {
    if gpuReads == [] then 0 else (if gpuReads[0].frame == f then 1 else 0) + ReadUses(gpuReads[1..], f)
  }

  // How many owners a frame has.
  function Uses(s: State, f: Frame): nat {
    (if s.pending == Some(f) then 1 else 0) + (if s.current == Some(f) then 1 else 0) + ReadUses(s.gpuReads, f)
  }

  lemma {:induction false} ReadUsesIn(gpuReads: seq<Read>, f: Frame)
    ensures ReadUses(gpuReads, f) > 0 <==> f in ReadFrames(gpuReads)
  {
    if gpuReads != [] {
      ReadUsesIn(gpuReads[1..], f);
      assert gpuReads == [gpuReads[0]] + gpuReads[1..];
    }
  }

  // A use count is positive exactly while some owner is left.
  lemma UsedIffHeld(s: State, f: Frame)
    ensures Uses(s, f) > 0 <==> f in Held(s)
  {
    ReadUsesIn(s.gpuReads, f);
  }

  lemma {:induction false} ReadUsesAppend(a: seq<Read>, b: seq<Read>, f: Frame)
    ensures ReadUses(a + b, f) == ReadUses(a, f) + ReadUses(b, f)
  {
    if a == [] {
      assert a + b == b;
    } else {
      assert (a + b)[1..] == a[1..] + b;
      ReadUsesAppend(a[1..], b, f);
    }
  }

  lemma ReadUsesWithout(gpuReads: seq<Read>, i: nat, f: Frame)
    requires i < |gpuReads|
    ensures ReadUses(gpuReads, f)
         == ReadUses(gpuReads[..i] + gpuReads[i + 1..], f) + (if gpuReads[i].frame == f then 1 else 0)
  {
    var before, here, after := gpuReads[..i], gpuReads[i..], gpuReads[i + 1..];
    assert gpuReads == before + here && here[1..] == after;
    ReadUsesAppend(before, after, f);
    ReadUsesAppend(before, here, f);
  }

  lemma ReadUsesUpdate(gpuReads: seq<Read>, i: nat, r: Read, f: Frame)
    requires i < |gpuReads| && r.frame == gpuReads[i].frame
    ensures ReadUses(gpuReads[i := r], f) == ReadUses(gpuReads, f)
  {
    ReadUsesWithout(gpuReads, i, f);
    ReadUsesWithout(gpuReads[i := r], i, f);
    assert gpuReads[i := r][..i] == gpuReads[..i] && gpuReads[i := r][i + 1..] == gpuReads[i + 1..];
  }

  // Every control block holds the number of owners; in CountedPlus one more reference to `f` is about to go.
  ghost predicate Counted(counts: multiset<Frame>, s: State) {
    forall f :: counts[f] == Uses(s, f)
  }

  ghost predicate CountedPlus(counts: multiset<Frame>, s: State, f: Frame) {
    forall g :: counts[g] == Uses(s, g) + if g == f then 1 else 0
  }

  // Use counts and soundness depend on the owners (and the generations they point into) only.
  lemma SameOwners(counts: multiset<Frame>, s: State, t: State)
    requires Counted(counts, s) && t.pending == s.pending && t.current == s.current && t.gpuReads == s.gpuReads
    ensures Counted(counts, t)
    ensures Sound(s) && t.gens == s.gens && t.ring == s.ring ==> Sound(t)
  {
    assert Held(t) == Held(s);
    forall f ensures counts[f] == Uses(t, f) { assert Uses(t, f) == Uses(s, f); }
  }

  // One reference less: the count is positive before, and zero afterwards exactly without owners.
  lemma Dropped(counts: multiset<Frame>, s: State, f: Frame)
    requires CountedPlus(counts, s, f)
    ensures counts[f] > 0 && Counted(counts[f := counts[f] - 1], s) && (counts[f] == 1 <==> f !in Held(s))
  {
    UsedIffHeld(s, f);
  }

  lemma ReleasedCells(s: State, owner: nat)
    requires Sound(s) && owner < |s.gens|
    ensures |s.gens[owner].released| == MAX_SLOTS
  {}

  // Assigning m_pending takes a reference to the new frame and leaves the old one to be dropped.
  lemma Assigned(counts: multiset<Frame>, s: State, f: Frame)
    requires Sound(s) && Counted(counts, s) && f.owner < |s.gens| && f.view.sharedSlot < s.gens[f.owner].slotCount
    ensures var t := s.(pending := Some(f));
            && Sound(t)
            && (if s.pending.Some? then CountedPlus(counts + multiset{f}, t, s.pending.value) else Counted(counts + multiset{f}, t))
    ensures s.pending.Some? ==> s.pending.value.owner < |s.gens| && s.pending.value.view.sharedSlot < MAX_SLOTS
  {
    assert Held(s.(pending := Some(f))) <= Held(s) + {f};
    if s.pending.Some? { assert s.pending.value in Held(s); }
  }

  lemma AppendCounted(counts: multiset<Frame>, s: State, r: Read)
    requires Counted(counts, s)
    ensures Counted(counts[r.frame := counts[r.frame] + 1], s.(gpuReads := s.gpuReads + [r]))
  {
    forall g ensures counts[r.frame := counts[r.frame] + 1][g] == Uses(s.(gpuReads := s.gpuReads + [r]), g) {
      ReadUsesAppend(s.gpuReads, [r], g);
      assert ReadUses([r], g) == if r.frame == g then 1 else 0;
    }
  }

  lemma UpdateCounted(counts: multiset<Frame>, s: State, i: nat, r: Read)
    requires Counted(counts, s) && i < |s.gpuReads| && r.frame == s.gpuReads[i].frame
    ensures Counted(counts, s.(gpuReads := s.gpuReads[i := r]))
  {
    forall f ensures counts[f] == Uses(s.(gpuReads := s.gpuReads[i := r]), f) { ReadUsesUpdate(s.gpuReads, i, r, f); }
  }

  class SharedFrameState {
    var gens: seq<Generation>
    var ring: Option<nat>
    var pending: Option<Frame>
    var current: Option<Frame>
    var gpuReads: seq<Read>
    var latest: Option<View>
    var epoch: nat
    var accept: bool
    var visible: bool
    var preparation: Preparation
    // Use count of each frame's control block.
    var counts: multiset<Frame>

    function Abs(): State
      reads this
    {
      State(gens, ring, pending, current, gpuReads, latest, epoch, accept, visible, preparation)
    }

    ghost predicate Valid()
      reads this
    {
      Sound(Abs()) && Counted(counts, Abs())
    }

    constructor ()
      ensures Valid() && Abs() == Initial
    {
      gens, ring, pending, current, gpuReads, latest := [], None, None, None, [], None;
      epoch, accept, visible, preparation, counts := 0, false, false, Idle, multiset{};
    }

    // One shared_ptr to `f` goes away; the last one runs the destructor.
    method Release(f: Frame)
      requires Sound(Abs()) && CountedPlus(counts, Abs(), f)
      requires f.owner < |gens| && f.view.sharedSlot < MAX_SLOTS
      modifies this`counts, this`gens
      ensures Valid() && Abs() == Settle(old(Abs()), f)
    {
      hide Sound, Uses, Held, Counted, CountedPlus;
      Dropped(counts, Abs(), f);
      counts := counts[f := counts[f] - 1];
      if counts[f] == 0 {
        ghost var held := Abs();
        ReleasedCells(Abs(), f.owner);
        var g := gens[f.owner];
        var top := if g.released[f.view.sharedSlot] < f.view.frameIndex then f.view.frameIndex else g.released[f.view.sharedSlot];
        gens := gens[f.owner := g.(released := g.released[f.view.sharedSlot := top])];
        SameOwners(counts, held, Abs());
      }
      assert Abs() == Settle(old(Abs()), f);
    }

    method ResetPending()
      requires Valid()
      modifies this`pending, this`counts, this`gens
      ensures Valid() && Abs() == DropPending(old(Abs()))
    {
      if pending.Some? {
        var f := pending.value;
        assert f in Held(Abs());
        pending := None;
        assert Held(Abs()) <= old(Held(Abs()));
        Release(f);
      }
    }

    method ResetCurrent()
      requires Valid()
      modifies this`current, this`counts, this`gens
      ensures Valid() && Abs() == DropCurrent(old(Abs()))
    {
      if current.Some? {
        var f := current.value;
        assert f in Held(Abs());
        current := None;
        assert Held(Abs()) <= old(Held(Abs()));
        Release(f);
      }
    }

    method Invalidate()
      requires Valid()
      modifies this
      ensures Valid() && Abs() == SharedFrameModel.Invalidate(old(Abs()))
    {
      hide Sound, Counted, DropPending, DropCurrent;
      ResetPending();
      ResetCurrent();
      SameOwners(counts, Abs(), Abs().(latest := None));
      latest := None;
    }

    method BeginRing(r: Ring)
      requires Valid() && r.slotCount <= MAX_SLOTS
      modifies this
      ensures Valid() && Abs() == SharedFrameModel.BeginRing(old(Abs()), r)
    {
      Invalidate();
      ring := Some(|gens|);
      gens := gens + [Generation(r.generation, r.slotCount, r.width, r.height, 0, NoReleases)];
    }

    method Disconnect()
      requires Valid()
      modifies this
      ensures Valid() && Abs() == SharedFrameModel.Disconnect(old(Abs()))
    {
      Invalidate();
      ring := None;
    }

    method SetPresentation(newEpoch: nat, acceptFrames: bool)
      requires Valid()
      modifies this
      ensures Valid() && Abs() == SharedFrameModel.SetPresentation(old(Abs()), newEpoch, acceptFrames)
    {
      hide Sound, Counted, DropPending, DropCurrent;
      if epoch != newEpoch || !acceptFrames {
        ResetPending();
        if preparation != Rendering { ResetCurrent(); }
        SameOwners(counts, Abs(), Abs().(latest := None));
        latest := None;
      }
      SameOwners(counts, Abs(), Abs().(epoch := newEpoch, accept := acceptFrames));
      epoch := newEpoch;
      accept := acceptFrames;
    }

    method BeginPreparation()
      requires Valid()
      modifies this
      ensures Valid() && Abs() == SharedFrameModel.BeginPreparation(old(Abs()))
    {
      hide Sound, Counted, DropPending;
      SameOwners(counts, Abs(), Abs().(preparation := Rendering));
      preparation := Rendering;
      ResetPending();
      SameOwners(counts, Abs(), Abs().(latest := None));
      latest := None;
    }

    method EndPreparation(commit: bool)
      requires Valid()
      modifies this
      ensures Valid() && Abs() == SharedFrameModel.EndPreparation(old(Abs()), commit)
    {
      hide Sound, Counted, DropPending;
      if !commit {
        ResetPending();
        SameOwners(counts, Abs(), Abs().(latest := None));
        latest := None;
      }
      SameOwners(counts, Abs(), Abs().(preparation := if commit then Committed else Idle));
      preparation := if commit then Committed else Idle;
    }

    method SetVisible(show: bool)
      requires Valid()
      modifies this
      ensures Valid() && Abs() == SharedFrameModel.SetVisible(old(Abs()), show)
    {
      visible := show;
      if !show { Invalidate(); }
    }

    // The lambda `held` of Publish over both selections and every read.
    method IsSlotHeld(slot: nat) returns (held: bool)
      requires Valid() && ring.Some?
      ensures held <==> SlotHeld(Abs(), slot)
    {
      held := (pending.Some? && pending.value.owner == ring.value && pending.value.view.sharedSlot == slot)
           || (current.Some? && current.value.owner == ring.value && current.value.view.sharedSlot == slot);
      var i := 0;
      while i < |gpuReads| && !held
        invariant i <= |gpuReads|
        invariant held ==> SlotHeld(Abs(), slot)
        invariant !held ==> forall f | f in OptionSet(pending) + OptionSet(current) + ReadFrames(gpuReads[..i]) ::
                              !(f.owner == ring.value && f.view.sharedSlot == slot)
      {
        var f := gpuReads[i].frame;
        assert gpuReads[i] in gpuReads && gpuReads[..i + 1] == gpuReads[..i] + [gpuReads[i]];
        held := f.owner == ring.value && f.view.sharedSlot == slot;
        i := i + 1;
      }
      assert gpuReads[..|gpuReads|] == gpuReads;
    }

    method Publish(slot: nat, serial: nat, width: nat, height: nat, frameEpoch: nat) returns (r: PublishResult)
      requires Valid()
      modifies this
      ensures Valid() && (r, Abs()) == SharedFrameModel.Publish(old(Abs()), slot, serial, width, height, frameEpoch)
    {
      hide Counted, SlotHeld, ReplacePending;
      if ring.None? || slot >= gens[ring.value].slotCount || serial == 0 { return Invalid; }
      var g := gens[ring.value];
      if serial <= g.lastSerial { return Discarded; }
      var held := IsSlotHeld(slot);
      if held { return Invalid; }
      if !accept || frameEpoch != epoch || width != g.width || height != g.height || (preparation != Idle && pending.Some?) {
        gens := gens[ring.value := g.(lastSerial := serial, released := g.released[slot := serial])];
        SameOwners(counts, old(Abs()), Abs());
        return Discarded;
      }
      gens := gens[ring.value := g.(lastSerial := serial)];
      SameOwners(counts, old(Abs()), Abs());
      assert Held(Abs()) == old(Held(Abs()));
      var view := View(width, height, g.id, serial, slot);
      AssignPending(Frame(view, ring.value));
      SameOwners(counts, Abs(), Abs().(latest := Some(view)));
      latest := Some(view);
      return Accepted;
    }

    // m_pending = make_shared<Frame>(...): the new frame is owned before the old reference goes.
    method AssignPending(f: Frame)
      requires Valid() && f.owner < |gens| && f.view.sharedSlot < gens[f.owner].slotCount
      modifies this
      ensures Valid() && Abs() == ReplacePending(old(Abs()), f)
    {
      hide Sound, Counted, CountedPlus;
      var before := pending;
      Assigned(counts, Abs(), f);
      counts := counts + multiset{f};
      pending := Some(f);
      if before.Some? { Release(before.value); }
    }

    method FindRead(list: nat, f: Frame) returns (found: bool)
      ensures found <==> HasRead(gpuReads, list, f)
    {
      found := false;
      var i := 0;
      while i < |gpuReads| && !found
        invariant i <= |gpuReads|
        invariant found ==> HasRead(gpuReads, list, f)
        invariant !found ==> forall j | 0 <= j < i :: !(gpuReads[j].list == list && gpuReads[j].frame == f)
      {
        found := gpuReads[i].list == list && gpuReads[i].frame == f;
        i := i + 1;
      }
    }

    // Add a read of `f` by this command list unless it has one.
    method KeepRead(list: nat, f: Frame)
      requires Valid() && f in Held(Abs())
      modifies this`gpuReads, this`counts
      ensures Valid() && Abs() == AddRead(old(Abs()), list, f)
    {
      hide Counted;
      var found := FindRead(list, f);
      if !found {
        AppendCounted(counts, Abs(), Read(f, list, 0, 0));
        counts := counts[f := counts[f] + 1];
        gpuReads := gpuReads + [Read(f, list, 0, 0)];
      }
    }

    method Record(list: nat, activeGeneration: nat, produced: nat) returns (r: Option<View>)
      requires Valid()
      modifies this
      ensures Valid() && (r, Abs()) == SharedFrameModel.Record(old(Abs()), list, activeGeneration, produced)
    {
      hide Counted, Promote, AddRead, Sound;
      if !visible || list == 0 { return None; }
      var promote := preparation != Rendering && pending.Some? && pending.value.view.ringGeneration == activeGeneration
                     && pending.value.view.frameIndex <= produced;
      var selected := if promote then pending else current;
      if selected.None? || selected.value.view.ringGeneration != activeGeneration { return None; }
      var f := selected.value;
      assert f in Held(Abs());
      KeepRead(list, f);
      if promote {
        TakePending();
      }
      r := Some(current.value.view);
    }

    method TakePending()
      requires Valid() && pending.Some?
      modifies this
      ensures Valid() && Abs() == Promote(old(Abs())) && current == old(pending)
    {
      var before := current;
      if before.Some? { assert before.value in Held(Abs()); }
      current := pending;
      pending := None;
      preparation := Idle;
      if before.Some? { Release(before.value); }
    }

    method PreparationReady(generation: nat, produced: nat, width: nat, height: nat) returns (ready: bool)
      ensures ready == SharedFrameModel.PreparationReady(Abs(), generation, produced, width, height)
    {
      ready := preparation == Rendering && pending.Some? && produced != UINT64_MAX
        && pending.value.view.ringGeneration == generation && pending.value.view.frameIndex <= produced
        && pending.value.view.width == width && pending.value.view.height == height;
    }

    method HasRecorded() returns (recorded: bool)
      ensures recorded <==> SharedFrameModel.HasRecorded(Abs())
    {
      recorded := false;
      var i := 0;
      while i < |gpuReads| && !recorded
        invariant i <= |gpuReads|
        invariant recorded ==> SharedFrameModel.HasRecorded(Abs())
        invariant !recorded ==> forall j | 0 <= j < i :: gpuReads[j].list == 0
      {
        recorded := gpuReads[i].list != 0;
        assert gpuReads[i] in gpuReads;
        i := i + 1;
      }
    }

    method HasRecordedIn(lists: set<nat>) returns (recorded: bool)
      ensures recorded <==> SharedFrameModel.HasRecordedIn(Abs(), lists)
    {
      recorded := false;
      var i := 0;
      while i < |gpuReads| && !recorded
        invariant i <= |gpuReads|
        invariant recorded ==> SharedFrameModel.HasRecordedIn(Abs(), lists)
        invariant !recorded ==> forall j | 0 <= j < i :: !(gpuReads[j].list != 0 && gpuReads[j].list in lists)
      {
        recorded := gpuReads[i].list != 0 && gpuReads[i].list in lists;
        assert gpuReads[i] in gpuReads;
        i := i + 1;
      }
    }

    method Submitted(lists: set<nat>, queue: nat, value: nat)
      requires Valid()
      modifies this`gpuReads
      ensures Valid() && Abs() == SharedFrameModel.Submitted(old(Abs()), lists, queue, value)
    {
      hide Counted, Sound;
      var i := 0;
      while i < |gpuReads|
        invariant i <= |gpuReads| == |old(gpuReads)|
        invariant forall j | 0 <= j < i :: gpuReads[j] == Submit(old(gpuReads)[j], lists, queue, value)
        invariant forall j | i <= j < |gpuReads| :: gpuReads[j] == old(gpuReads)[j]
        invariant Counted(counts, Abs())
        modifies this`gpuReads
      {
        if gpuReads[i].list != 0 && gpuReads[i].list in lists {
          var r := gpuReads[i].(list := 0, queue := queue, completion := value);
          UpdateCounted(counts, Abs(), i, r);
          gpuReads := gpuReads[i := r];
        }
        i := i + 1;
      }
      assert gpuReads == SubmitAll(old(gpuReads), lists, queue, value);
      assert Abs() == SharedFrameModel.Submitted(old(Abs()), lists, queue, value);
    }

    method Completed(queue: nat, value: nat)
      requires Valid()
      modifies this`gpuReads, this`gens, this`counts
      ensures Valid() && Abs() == SharedFrameModel.Completed(old(Abs()), queue, value)
    {
      if queue == 0 || value == UINT64_MAX { return; }
      var i := 0;
      while i < |gpuReads|
        invariant i <= |gpuReads| && Valid()
        invariant EraseDone(Abs(), i, queue, value) == EraseDone(old(Abs()), 0, queue, value)
        decreases |gpuReads| - i
      {
        if gpuReads[i].list == 0 && gpuReads[i].queue == queue && gpuReads[i].completion <= value {
          EraseRead(i);
        } else {
          i := i + 1;
        }
      }
    }

    method EraseRead(i: nat)
      requires Valid() && i < |gpuReads|
      modifies this`gpuReads, this`gens, this`counts
      ensures Valid() && Abs() == DropRead(old(Abs()), i) && |gpuReads| == |old(gpuReads)| - 1
    {
      var f := gpuReads[i].frame;
      assert gpuReads[i] in gpuReads && f in Held(Abs());
      forall g { ReadUsesWithout(gpuReads, i, g); }
      gpuReads := gpuReads[..i] + gpuReads[i + 1..];
      Release(f);
    }

    method TakeReleases() returns (releases: seq<nat>)
      requires Valid()
      modifies this`gens
      ensures Valid() && (releases, Abs()) == SharedFrameModel.TakeReleases(old(Abs()))
    {
      if ring.None? { return NoReleases; }
      releases := gens[ring.value].released;
      gens := gens[ring.value := gens[ring.value].(released := NoReleases)];
    }
  }
}
