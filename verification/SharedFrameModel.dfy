// The value-level meaning of src/Render/SharedFrameState.h.
//
// A frame is kept alive by the selection (pending, current) and by every recorded or submitted
// GPU read. `Held` is that set of owners; the moment a frame leaves it, its destructor raises the
// `released` cell of the slot it occupied, in the generation it was created for. The class in
// SharedFrameState.dfy reaches the same states with reference counts.
module SharedFrameModel {
  import opened Wrappers

  const MAX_SLOTS: nat := 8
  const UINT64_MAX: nat := 0xFFFF_FFFF_FFFF_FFFF

  datatype View = View(width: nat, height: nat, ringGeneration: nat, frameIndex: nat, sharedSlot: nat)

  // `owner` is the index of the Generation object the frame shares ownership of.
  datatype Frame = Frame(view: View, owner: nat)

  datatype Generation = Generation(id: nat, slotCount: nat, width: nat, height: nat, lastSerial: nat, released: seq<nat>)

  datatype Read = Read(frame: Frame, list: nat, queue: nat, completion: nat)

  datatype Preparation = Idle | Rendering | Committed

  datatype PublishResult = Accepted | Discarded | Invalid

  datatype Ring = Ring(generation: nat, slotCount: nat, width: nat, height: nat)

  // `gens` lists every Generation object made so far; `ring` is the one m_generation points at.
  datatype State = State(
    gens: seq<Generation>, ring: Option<nat>,
    pending: Option<Frame>, current: Option<Frame>, gpuReads: seq<Read>, latest: Option<View>,
    epoch: nat, accept: bool, visible: bool, preparation: Preparation)

  const Initial := State([], None, None, None, [], None, 0, false, false, Idle)

  const NoReleases: seq<nat> := [0, 0, 0, 0, 0, 0, 0, 0]

  function OptionSet<T>(o: Option<T>): set<T> {
    if o.Some? then {o.value} else {}
  }

  function ReadFrames(gpuReads: seq<Read>): set<Frame> {
    set r | r in gpuReads :: r.frame
  }

  function Held(s: State): set<Frame> {
    OptionSet(s.pending) + OptionSet(s.current) + ReadFrames(s.gpuReads)
  }

  // Every index the operations use is in range.
  predicate Sound(s: State) {
    && (s.ring.Some? ==> s.ring.value < |s.gens|)
    && (forall i | 0 <= i < |s.gens| :: s.gens[i].slotCount <= MAX_SLOTS && |s.gens[i].released| == MAX_SLOTS)
    && (forall f | f in Held(s) :: f.owner < |s.gens| && f.view.sharedSlot < s.gens[f.owner].slotCount)
  }

  function Raise(g: Generation, slot: nat, serial: nat): Generation
    requires slot < |g.released|
  {
    g.(released := g.released[slot := Max(g.released[slot], serial)])
  }

  // ~Frame
  function Destroy(gens: seq<Generation>, f: Frame): seq<Generation>
    requires f.owner < |gens| && f.view.sharedSlot < |gens[f.owner].released|
  {
    gens[f.owner := Raise(gens[f.owner], f.view.sharedSlot, f.view.frameIndex)]
  }

  // One reference to `f` has just gone away: destroy it when no owner is left.
  function Settle(s: State, f: Frame): (t: State)
    requires Sound(s) && f.owner < |s.gens| && f.view.sharedSlot < MAX_SLOTS
    ensures Sound(t)
  {
    if f in Held(s) then s else
    var t := s.(gens := Destroy(s.gens, f));
    assert Held(t) == Held(s);
    t
  }

  function DropPending(s: State): (t: State)
    requires Sound(s)
    ensures Sound(t)
  {
    if s.pending.None? then s else
    var t := s.(pending := None);
    assert Held(t) <= Held(s) && s.pending.value in Held(s);
    Settle(t, s.pending.value)
  }

  function DropCurrent(s: State): (t: State)
    requires Sound(s)
    ensures Sound(t)
  {
    if s.current.None? then s else
    var t := s.(current := None);
    assert Held(t) <= Held(s) && s.current.value in Held(s);
    Settle(t, s.current.value)
  }

  function DropRead(s: State, i: nat): (t: State)
    requires Sound(s) && i < |s.gpuReads|
    ensures Sound(t)
  {
    var t := s.(gpuReads := s.gpuReads[..i] + s.gpuReads[i + 1..]);
    assert s.gpuReads[i].frame in Held(s);
    assert Held(t) <= Held(s);
    Settle(t, s.gpuReads[i].frame)
  }

  function Invalidate(s: State): (t: State)
    requires Sound(s)
    ensures Sound(t)
  {
    DropCurrent(DropPending(s)).(latest := None)
  }

  function BeginRing(s: State, r: Ring): (t: State)
    requires Sound(s) && r.slotCount <= MAX_SLOTS
    ensures Sound(t)
  {
    var u := Invalidate(s);
    var t := u.(gens := u.gens + [Generation(r.generation, r.slotCount, r.width, r.height, 0, NoReleases)],
                ring := Some(|u.gens|));
    assert Held(t) == Held(u);
    t
  }

  function Disconnect(s: State): (t: State)
    requires Sound(s)
    ensures Sound(t)
  {
    Invalidate(s).(ring := None)
  }

  function SetPresentation(s: State, epoch: nat, accept: bool): (t: State)
    requires Sound(s)
    ensures Sound(t)
  {
    Presented(s, epoch, accept).(epoch := epoch, accept := accept)
  }

  // What a presentation change drops: everything selected, or during preparation only the pending frame.
  function Presented(s: State, epoch: nat, accept: bool): (t: State)
    requires Sound(s)
    ensures Sound(t)
  {
    if s.epoch == epoch && accept then s
    else if s.preparation == Rendering then DropPending(s).(latest := None)
    else DropCurrent(DropPending(s)).(latest := None)
  }

  function BeginPreparation(s: State): (t: State)
    requires Sound(s)
    ensures Sound(t)
  {
    DropPending(s.(preparation := Rendering)).(latest := None)
  }

  function EndPreparation(s: State, commit: bool): (t: State)
    requires Sound(s)
    ensures Sound(t)
  {
    var u := if commit then s else DropPending(s).(latest := None);
    u.(preparation := if commit then Committed else Idle)
  }

  predicate PreparationReady(s: State, generation: nat, produced: nat, width: nat, height: nat) {
    && s.preparation == Rendering && s.pending.Some? && produced != UINT64_MAX
    && s.pending.value.view.ringGeneration == generation && s.pending.value.view.frameIndex <= produced
    && s.pending.value.view.width == width && s.pending.value.view.height == height
  }

  function SetVisible(s: State, visible: bool): (t: State)
    requires Sound(s)
    ensures Sound(t)
  {
    var u := s.(visible := visible);
    if visible then u else Invalidate(u)
  }

  // Some owner still holds a frame of the current ring on this slot.
  predicate SlotHeld(s: State, slot: nat) {
    s.ring.Some? && exists f | f in Held(s) :: f.owner == s.ring.value && f.view.sharedSlot == slot
  }

  predicate Publishable(s: State, slot: nat, serial: nat)
    requires Sound(s)
  {
    && s.ring.Some? && slot < s.gens[s.ring.value].slotCount && serial != 0
    && serial > s.gens[s.ring.value].lastSerial && !SlotHeld(s, slot)
  }

  predicate Wanted(s: State, width: nat, height: nat, epoch: nat)
    requires Sound(s) && s.ring.Some?
  {
    && s.accept && epoch == s.epoch
    && width == s.gens[s.ring.value].width && height == s.gens[s.ring.value].height
    && (s.preparation == Idle || s.pending.None?)
  }

  // m_pending = f, which drops the reference to the frame that was pending before.
  function ReplacePending(s: State, f: Frame): (t: State)
    requires Sound(s) && f.owner < |s.gens| && f.view.sharedSlot < s.gens[f.owner].slotCount
    ensures Sound(t)
  {
    var t := s.(pending := Some(f));
    assert Held(t) <= Held(s) + {f};
    if s.pending.None? then t else
    assert s.pending.value in Held(s);
    Settle(t, s.pending.value)
  }

  function Publish(s: State, slot: nat, serial: nat, width: nat, height: nat, epoch: nat): (r: (PublishResult, State))
    requires Sound(s)
    ensures Sound(r.1)
  {
    if s.ring.None? || slot >= s.gens[s.ring.value].slotCount || serial == 0 then (Invalid, s) else
    var g := s.gens[s.ring.value];
    if serial <= g.lastSerial then (Discarded, s) else
    if SlotHeld(s, slot) then (Invalid, s) else
    if !Wanted(s, width, height, epoch) then
      var t := s.(gens := s.gens[s.ring.value := g.(lastSerial := serial, released := g.released[slot := serial])]);
      assert Held(t) == Held(s);
      (Discarded, t)
    else
      var u := s.(gens := s.gens[s.ring.value := g.(lastSerial := serial)]);
      assert Held(u) == Held(s);
      var view := View(width, height, g.id, serial, slot);
      (Accepted, ReplacePending(u, Frame(view, u.ring.value)).(latest := Some(view)))
  }

  predicate Promotes(s: State, activeGeneration: nat, produced: nat) {
    && s.preparation != Rendering && s.pending.Some?
    && s.pending.value.view.ringGeneration == activeGeneration
    && s.pending.value.view.frameIndex <= produced
  }

  function Selected(s: State, activeGeneration: nat, produced: nat): Option<Frame> {
    if Promotes(s, activeGeneration, produced) then s.pending else s.current
  }

  predicate Draws(s: State, list: nat, activeGeneration: nat, produced: nat) {
    var selected := Selected(s, activeGeneration, produced);
    s.visible && list != 0 && selected.Some? && selected.value.view.ringGeneration == activeGeneration
  }

  predicate HasRead(gpuReads: seq<Read>, list: nat, f: Frame) {
    exists r | r in gpuReads :: r.list == list && r.frame == f
  }

  // m_current = exchange(m_pending, {}), which drops the reference to the frame that was current.
  function Promote(s: State): (t: State)
    requires Sound(s) && s.pending.Some?
    ensures Sound(t)
  {
    var t := s.(current := s.pending, pending := None, preparation := Idle);
    assert Held(t) <= Held(s);
    if s.current.None? then t else
    assert s.current.value in Held(s);
    Settle(t, s.current.value)
  }

  function AddRead(s: State, list: nat, f: Frame): (t: State)
    requires Sound(s) && f in Held(s)
    ensures Sound(t) && Held(t) == Held(s)
  {
    if HasRead(s.gpuReads, list, f) then s else
    var t := s.(gpuReads := s.gpuReads + [Read(f, list, 0, 0)]);
    assert Held(t) == Held(s);
    t
  }

  function Record(s: State, list: nat, activeGeneration: nat, produced: nat): (r: (Option<View>, State))
    requires Sound(s)
    ensures Sound(r.1)
  {
    if !Draws(s, list, activeGeneration, produced) then (None, s) else
    var f := Selected(s, activeGeneration, produced).value;
    assert f in Held(s);
    var u := AddRead(s, list, f);
    if !Promotes(s, activeGeneration, produced) then (Some(f.view), u) else
    (Some(f.view), Promote(u))
  }

  predicate HasRecorded(s: State) {
    exists r | r in s.gpuReads :: r.list != 0
  }

  predicate HasRecordedIn(s: State, lists: set<nat>) {
    exists r | r in s.gpuReads :: r.list != 0 && r.list in lists
  }

  function Submit(r: Read, lists: set<nat>, queue: nat, value: nat): Read {
    if r.list != 0 && r.list in lists then r.(list := 0, queue := queue, completion := value) else r
  }

  function SubmitAll(gpuReads: seq<Read>, lists: set<nat>, queue: nat, value: nat): (r: seq<Read>)
    ensures |r| == |gpuReads|
    ensures forall i | 0 <= i < |r| :: r[i] == Submit(gpuReads[i], lists, queue, value)
  {
    if gpuReads == [] then [] else [Submit(gpuReads[0], lists, queue, value)] + SubmitAll(gpuReads[1..], lists, queue, value)
  }

  function Submitted(s: State, lists: set<nat>, queue: nat, value: nat): (t: State)
    requires Sound(s)
    ensures Sound(t)
  {
    var t := s.(gpuReads := SubmitAll(s.gpuReads, lists, queue, value));
    SubmittedHolds(s, t, lists, queue, value);
    t
  }

  lemma SubmittedHolds(s: State, t: State, lists: set<nat>, queue: nat, value: nat)
    requires t == s.(gpuReads := t.gpuReads) && |t.gpuReads| == |s.gpuReads|
    requires forall i | 0 <= i < |s.gpuReads| :: t.gpuReads[i] == Submit(s.gpuReads[i], lists, queue, value)
    ensures Held(t) == Held(s)
  {
    forall r | r in s.gpuReads ensures r.frame in ReadFrames(t.gpuReads) {
      var i :| 0 <= i < |s.gpuReads| && s.gpuReads[i] == r;
      assert t.gpuReads[i] in t.gpuReads;
    }
    forall r | r in t.gpuReads ensures r.frame in ReadFrames(s.gpuReads) {
      var i :| 0 <= i < |t.gpuReads| && t.gpuReads[i] == r;
      assert s.gpuReads[i] in s.gpuReads;
    }
    assert ReadFrames(t.gpuReads) == ReadFrames(s.gpuReads);
  }

  predicate Done(r: Read, queue: nat, value: nat) {
    r.list == 0 && r.queue == queue && r.completion <= value
  }

  // Erase every finished read from index i on, one reference at a time.
  function EraseDone(s: State, i: nat, queue: nat, value: nat): (t: State)
    requires Sound(s) && i <= |s.gpuReads|
    ensures Sound(t)
    decreases |s.gpuReads| - i
  {
    if i == |s.gpuReads| then s
    else if Done(s.gpuReads[i], queue, value) then EraseDone(DropRead(s, i), i, queue, value)
    else EraseDone(s, i + 1, queue, value)
  }

  function Completed(s: State, queue: nat, value: nat): (t: State)
    requires Sound(s)
    ensures Sound(t)
  {
    if queue == 0 || value == UINT64_MAX then s else EraseDone(s, 0, queue, value)
  }

  function TakeReleases(s: State): (r: (seq<nat>, State))
    requires Sound(s)
    ensures Sound(r.1) && |r.0| == MAX_SLOTS
  {
    if s.ring.None? then (NoReleases, s) else
    var g := s.gens[s.ring.value];
    var t := s.(gens := s.gens[s.ring.value := g.(released := NoReleases)]);
    assert Held(t) == Held(s);
    (g.released, t)
  }
}
