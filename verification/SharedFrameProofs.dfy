// What the shared-frame protocol keeps in every reachable state.
//
// A run is any sequence of calls into SharedFrameState. Beside the state it carries the history
// of the current ring generation: which (slot, serial) pairs Publish consumed, the last serial
// consumed on each slot, the last acknowledgement reported for each slot, and the last serial drawn.
module SharedFrameProofs {
  import opened Wrappers
  import opened SharedFrameModel

  datatype History = History(published: set<(nat, nat)>, consumed: seq<nat>, acked: seq<nat>, shown: nat, fence: nat)

  const NoHistory := History({}, NoReleases, NoReleases, 0, 0)

  datatype Model = Model(s: State, h: History)

  datatype Event =
    | EBeginRing(ring: Ring)
    | EDisconnect
    | ESetPresentation(epoch: nat, accept: bool)
    | EBeginPreparation
    | EEndPreparation(commit: bool)
    | ESetVisible(visible: bool)
    | EPublish(slot: nat, serial: nat, width: nat, height: nat, frameEpoch: nat)
    | ERecord(list: nat, activeGeneration: nat, produced: nat)
    | ESubmitted(lists: set<nat>, queue: nat, value: nat)
    | ECompleted(doneQueue: nat, doneValue: nat)
    | ETakeReleases

  predicate ValidEvent(e: Event) {
    e.EBeginRing? ==> e.ring.slotCount <= MAX_SLOTS
  }

  // The serials TakeReleases reports now, slot by slot.
  function Reported(s: State): (r: seq<nat>)
    requires Sound(s)
    ensures |r| == MAX_SLOTS
  {
    TakeReleases(s).0
  }

  function NotePublish(s: State, h: History, e: Event): History
    requires Sound(s) && e.EPublish? && |h.consumed| == MAX_SLOTS
  {
    if Publishable(s, e.slot, e.serial) then
      h.(published := h.published + {(e.slot, e.serial)}, consumed := h.consumed[e.slot := e.serial])
    else h
  }

  function NoteRecord(s: State, h: History, e: Event): History
    requires Sound(s) && e.ERecord?
  {
    var r := Record(s, e.list, e.activeGeneration, e.produced).0;
    if r.None? then h else
    h.(shown := r.value.frameIndex, fence := if Promotes(s, e.activeGeneration, e.produced) then e.produced else h.fence)
  }

  function NoteReleases(s: State, h: History): History
    requires Sound(s) && |h.acked| == MAX_SLOTS
  {
    var r := Reported(s);
    h.(acked := seq(MAX_SLOTS, i requires 0 <= i < MAX_SLOTS => if r[i] > 0 then r[i] else h.acked[i]))
  }

  function Step(m: Model, e: Event): Model
    requires Sound(m.s) && |m.h.consumed| == |m.h.acked| == MAX_SLOTS && ValidEvent(e)
  {
    match e
    case EBeginRing(ring) => Model(BeginRing(m.s, ring), NoHistory)
    case EDisconnect => Model(Disconnect(m.s), NoHistory)
    case ESetPresentation(epoch, accept) => Model(SetPresentation(m.s, epoch, accept), m.h)
    case EBeginPreparation => Model(BeginPreparation(m.s), m.h)
    case EEndPreparation(commit) => Model(EndPreparation(m.s, commit), m.h)
    case ESetVisible(visible) => Model(SetVisible(m.s, visible), m.h)
    case EPublish(slot, serial, width, height, epoch) =>
      Model(Publish(m.s, slot, serial, width, height, epoch).1, NotePublish(m.s, m.h, e))
    case ERecord(list, activeGeneration, produced) =>
      Model(Record(m.s, list, activeGeneration, produced).1, NoteRecord(m.s, m.h, e))
    case ESubmitted(lists, queue, value) => Model(Submitted(m.s, lists, queue, value), m.h)
    case ECompleted(queue, value) => Model(Completed(m.s, queue, value), m.h)
    case ETakeReleases => Model(TakeReleases(m.s).1, NoteReleases(m.s, m.h))
  }

  predicate FrameOk(s: State, f: Frame) {
    && f.owner < |s.gens|
    && f.view.sharedSlot < s.gens[f.owner].slotCount <= MAX_SLOTS == |s.gens[f.owner].released|
    && 0 < f.view.frameIndex <= s.gens[f.owner].lastSerial
    && f.view.ringGeneration == s.gens[f.owner].id
    && s.gens[f.owner].released[f.view.sharedSlot] < f.view.frameIndex
  }

  // Live frames of one generation never share a slot or a serial.
  predicate Apart(f: Frame, g: Frame) {
    f.owner == g.owner && f != g ==> f.view.sharedSlot != g.view.sharedSlot && f.view.frameIndex != g.view.frameIndex
  }

  predicate OnSlot(s: State, f: Frame, slot: nat) {
    s.ring.Some? && f.owner == s.ring.value && f.view.sharedSlot == slot
  }

  // Where the last serial consumed on a slot is now: in a live frame, waiting to be reported, or acknowledged.
  predicate Account(s: State, live: set<Frame>, h: History, slot: nat)
    requires s.ring.Some? && s.ring.value < |s.gens| && slot < |s.gens[s.ring.value].released|
    requires slot < |h.consumed| && slot < |h.acked|
  {
    var r, a, c := s.gens[s.ring.value].released[slot], h.acked[slot], h.consumed[slot];
    && c <= s.gens[s.ring.value].lastSerial
    && (r > 0 ==> a < r <= c && (slot, r) in h.published)
    && (a > 0 ==> a <= c && (slot, a) in h.published)
    && (c > 0 ==> (slot, c) in h.published)
    && (forall f | f in live && OnSlot(s, f, slot) :: f.view.frameIndex == c && r < c && a < c)
    && ((forall f | f in live :: !OnSlot(s, f, slot)) ==> c == if r > 0 then r else a)
  }

  predicate Core(s: State, live: set<Frame>, h: History) {
    && Sound(s) && Held(s) <= live
    && |h.consumed| == |h.acked| == MAX_SLOTS
    && (forall f | f in live :: FrameOk(s, f))
    && (forall f, g | f in live && g in live :: Apart(f, g))
    && (s.ring.Some? ==> forall slot: nat | slot < MAX_SLOTS :: Account(s, live, h, slot))
  }

  predicate SelectionOk(s: State, h: History) {
    && (s.pending.Some? ==> s.ring == Some(s.pending.value.owner) && h.shown < s.pending.value.view.frameIndex)
    && (s.current.Some? ==> s.ring == Some(s.current.value.owner)
                            && h.shown == s.current.value.view.frameIndex <= h.fence)
    && (s.pending.Some? && s.current.Some? ==> s.current.value.view.frameIndex < s.pending.value.view.frameIndex)
    && (s.latest.Some? ==>
          if s.pending.Some? then s.latest.value == s.pending.value.view
          else s.current.Some? && s.latest.value == s.current.value.view)
    && (s.ring.Some? && s.ring.value < |s.gens| ==> h.shown <= s.gens[s.ring.value].lastSerial)
  }

  predicate Inv(m: Model) {
    Core(m.s, Held(m.s), m.h) && SelectionOk(m.s, m.h)
  }

  // ---- every step keeps the invariant --------------------------------------------------------

  lemma SettleKeeps(s: State, f: Frame, h: History)
    requires Core(s, Held(s) + {f}, h)
    ensures Core(Settle(s, f), Held(s), h)
    ensures Settle(s, f) == s.(gens := Settle(s, f).gens) && |Settle(s, f).gens| == |s.gens|
    ensures forall i | 0 <= i < |s.gens| :: Settle(s, f).gens[i].lastSerial == s.gens[i].lastSerial
  {
    assert FrameOk(s, f);
    if f !in Held(s) {
      var t := Settle(s, f);
      assert Held(t) == Held(s);
      forall g | g in Held(s) ensures FrameOk(t, g) {
        assert FrameOk(s, g) && Apart(f, g);
      }
      if s.ring.Some? {
        forall slot: nat | slot < MAX_SLOTS ensures Account(t, Held(s), h, slot) {
          assert Account(s, Held(s) + {f}, h, slot);
          if OnSlot(s, f, slot) {
            forall g | g in Held(s) ensures !OnSlot(t, g, slot) { assert Apart(f, g); }
          } else {
            forall g | g in Held(s) ensures OnSlot(t, g, slot) ==> OnSlot(s, g, slot) {}
          }
        }
      }
    } else {
      assert Held(s) + {f} == Held(s);
    }
  }

  // Forgetting the selection never loses an account: what it held is settled or still read by the GPU.
  lemma DropPendingKeeps(s: State, h: History)
    requires Core(s, Held(s), h) && SelectionOk(s, h)
    ensures var t := DropPending(s).(latest := None); Core(t, Held(t), h) && SelectionOk(t, h)
    ensures DropPending(s) == s.(gens := DropPending(s).gens, pending := None)
  {
    var t := DropPending(s).(latest := None);
    if s.pending.Some? {
      var u := s.(pending := None);
      assert Held(u) + {s.pending.value} == Held(s);
      CoreSameGens(s, u, Held(s), h);
      SettleKeeps(u, s.pending.value, h);
    }
    CoreSameGens(DropPending(s), t, Held(t), h);
  }

  lemma DropCurrentKeeps(s: State, h: History)
    requires Core(s, Held(s), h) && SelectionOk(s, h)
    ensures var t := DropCurrent(s).(latest := None); Core(t, Held(t), h) && SelectionOk(t, h)
    ensures DropCurrent(s) == s.(gens := DropCurrent(s).gens, current := None)
  {
    var t := DropCurrent(s).(latest := None);
    if s.current.Some? {
      var u := s.(current := None);
      assert Held(u) + {s.current.value} == Held(s);
      CoreSameGens(s, u, Held(s), h);
      SettleKeeps(u, s.current.value, h);
    }
    CoreSameGens(DropCurrent(s), t, Held(t), h);
  }

  // Core speaks of the generations, the ring and the live set only.
  lemma CoreSameGens(s: State, t: State, live: set<Frame>, h: History)
    requires Core(s, live, h) && t.gens == s.gens && t.ring == s.ring && Held(t) <= live
    ensures Core(t, live, h)
  {
    forall f | f in live ensures FrameOk(t, f) { assert FrameOk(s, f); }
    if s.ring.Some? {
      forall slot: nat | slot < MAX_SLOTS ensures Account(t, live, h, slot) {
        assert Account(s, live, h, slot);
        forall f | f in live ensures OnSlot(t, f, slot) == OnSlot(s, f, slot) {}
      }
    }
  }

  lemma InvalidateKeeps(s: State, h: History)
    requires Core(s, Held(s), h) && SelectionOk(s, h)
    ensures var t := Invalidate(s); Core(t, Held(t), h) && SelectionOk(t, h) && t.pending.None? && t.current.None?
    ensures Invalidate(s) == s.(gens := Invalidate(s).gens, pending := None, current := None, latest := None)
  {
    DropPendingKeeps(s, h);
    var u := DropPending(s).(latest := None);
    DropCurrentKeeps(u, h);
    assert DropCurrent(u) == DropCurrent(DropPending(s)).(latest := None) by {
      var v := DropPending(s);
      if v.current.Some? {
        assert Held(u.(current := None)) == Held(v.(current := None));
      }
    }
  }

  lemma BeginRingKeeps(m: Model, ring: Ring)
    requires Inv(m) && ring.slotCount <= MAX_SLOTS
    ensures Inv(Step(m, EBeginRing(ring)))
  {
    InvalidateKeeps(m.s, m.h);
    var u, t := Invalidate(m.s), BeginRing(m.s, ring);
    assert Held(t) == Held(u);
    forall f | f in Held(t) ensures FrameOk(t, f) { assert FrameOk(u, f); }
    forall slot: nat | slot < MAX_SLOTS ensures Account(t, Held(t), NoHistory, slot) {
      forall f | f in Held(t) ensures !OnSlot(t, f, slot) { assert FrameOk(u, f); }
    }
  }

  lemma DisconnectKeeps(m: Model)
    requires Inv(m)
    ensures Inv(Step(m, EDisconnect))
  {
    InvalidateKeeps(m.s, m.h);
    var u, t := Invalidate(m.s), Disconnect(m.s);
    assert Held(t) == Held(u);
    forall f | f in Held(t) ensures FrameOk(t, f) { assert FrameOk(u, f); }
  }

  lemma SetPresentationKeeps(m: Model, epoch: nat, accept: bool)
    requires Inv(m)
    ensures Inv(Step(m, ESetPresentation(epoch, accept)))
  {
    var t := SetPresentation(m.s, epoch, accept);
    if m.s.epoch == epoch && accept {
      CoreSameGens(m.s, t, Held(t), m.h);
    } else if m.s.preparation == Rendering {
      DropPendingKeeps(m.s, m.h);
      CoreSameGens(DropPending(m.s).(latest := None), t, Held(t), m.h);
    } else {
      InvalidateKeeps(m.s, m.h);
      CoreSameGens(Invalidate(m.s), t, Held(t), m.h);
    }
  }

  lemma PreparationKeeps(m: Model, e: Event)
    requires Inv(m) && (e.EBeginPreparation? || e.EEndPreparation?)
    ensures Inv(Step(m, e))
  {
    var t := Step(m, e).s;
    if e.EBeginPreparation? {
      var s := m.s.(preparation := Rendering);
      CoreSameGens(m.s, s, Held(s), m.h);
      DropPendingKeeps(s, m.h);
    } else if e.commit {
      CoreSameGens(m.s, t, Held(t), m.h);
    } else {
      DropPendingKeeps(m.s, m.h);
      CoreSameGens(DropPending(m.s).(latest := None), t, Held(t), m.h);
    }
  }

  lemma SetVisibleKeeps(m: Model, visible: bool)
    requires Inv(m)
    ensures Inv(Step(m, ESetVisible(visible)))
  {
    var u := m.s.(visible := visible);
    CoreSameGens(m.s, u, Held(u), m.h);
    if !visible { InvalidateKeeps(u, m.h); }
  }

  // Consuming a fresh serial on a free slot: what both outcomes of an admissible Publish build on.
  lemma ConsumeKeeps(s: State, h: History, slot: nat, serial: nat, f: Frame)
    requires Core(s, Held(s), h) && SelectionOk(s, h) && Publishable(s, slot, serial)
    requires f.owner == s.ring.value && f.view.sharedSlot == slot && f.view.frameIndex == serial
    requires f.view.ringGeneration == s.gens[f.owner].id
    ensures var g := s.gens[s.ring.value];
            var h' := h.(published := h.published + {(slot, serial)}, consumed := h.consumed[slot := serial]);
            && Core(s.(gens := s.gens[f.owner := g.(lastSerial := serial)]), Held(s) + {f}, h')
            && Core(s.(gens := s.gens[f.owner := g.(lastSerial := serial, released := g.released[slot := serial])]), Held(s), h')
  {
    ConsumeAccepted(s, h, slot, serial, f);
    ConsumeDiscarded(s, h, slot, serial, f);
  }

  // The slot is free, so the new frame shares neither slot nor serial with a live one of its generation.
  lemma FreeSlot(s: State, h: History, slot: nat, serial: nat, f: Frame)
    requires Core(s, Held(s), h) && SelectionOk(s, h) && Publishable(s, slot, serial)
    requires f.owner == s.ring.value && f.view.sharedSlot == slot && f.view.frameIndex == serial
    requires f.view.ringGeneration == s.gens[f.owner].id
    ensures forall x | x in Held(s) :: Apart(x, f) && Apart(f, x) && !OnSlot(s, x, slot)
  {
    forall x | x in Held(s) ensures Apart(x, f) && Apart(f, x) && !OnSlot(s, x, slot) {
      assert FrameOk(s, x);
      assert x.owner == s.ring.value && x.view.sharedSlot == slot ==> SlotHeld(s, slot);
    }
  }

  lemma ConsumeAccepted(s: State, h: History, slot: nat, serial: nat, f: Frame)
    requires Core(s, Held(s), h) && SelectionOk(s, h) && Publishable(s, slot, serial)
    requires f.owner == s.ring.value && f.view.sharedSlot == slot && f.view.frameIndex == serial
    requires f.view.ringGeneration == s.gens[f.owner].id
    ensures var h' := h.(published := h.published + {(slot, serial)}, consumed := h.consumed[slot := serial]);
            Core(s.(gens := s.gens[f.owner := s.gens[f.owner].(lastSerial := serial)]), Held(s) + {f}, h')
  {
    hide SlotHeld, Apart;
    var h' := h.(published := h.published + {(slot, serial)}, consumed := h.consumed[slot := serial]);
    var u := s.(gens := s.gens[f.owner := s.gens[f.owner].(lastSerial := serial)]);
    FreeSlot(s, h, slot, serial, f);
    ApartFromItself(f);
    assert Held(u) == Held(s);
    assert Account(s, Held(s), h, slot);
    forall x | x in Held(s) ensures FrameOk(u, x) { assert FrameOk(s, x); }
    forall i: nat | i < MAX_SLOTS ensures Account(u, Held(s) + {f}, h', i) {
      assert Account(s, Held(s), h, i);
      if i == slot {
        assert OnSlot(u, f, slot);
      } else {
        assert forall x :: OnSlot(u, x, i) == OnSlot(s, x, i);
        if forall x | x in Held(s) + {f} :: !OnSlot(u, x, i) { assert forall x | x in Held(s) :: !OnSlot(s, x, i); }
      }
    }
  }

  lemma ApartFromItself(f: Frame)
    ensures Apart(f, f)
  {}

  lemma ConsumeDiscarded(s: State, h: History, slot: nat, serial: nat, f: Frame)
    requires Core(s, Held(s), h) && SelectionOk(s, h) && Publishable(s, slot, serial)
    requires f.owner == s.ring.value && f.view.sharedSlot == slot && f.view.frameIndex == serial
    requires f.view.ringGeneration == s.gens[f.owner].id
    ensures var g := s.gens[s.ring.value];
            var h' := h.(published := h.published + {(slot, serial)}, consumed := h.consumed[slot := serial]);
            Core(s.(gens := s.gens[f.owner := g.(lastSerial := serial, released := g.released[slot := serial])]), Held(s), h')
  {
    hide SlotHeld, Apart;
    var g := s.gens[s.ring.value];
    var h' := h.(published := h.published + {(slot, serial)}, consumed := h.consumed[slot := serial]);
    var t := s.(gens := s.gens[f.owner := g.(lastSerial := serial, released := g.released[slot := serial])]);
    FreeSlot(s, h, slot, serial, f);
    assert Held(t) == Held(s);
    assert Account(s, Held(s), h, slot);
    forall x | x in Held(s) ensures FrameOk(t, x) && !OnSlot(t, x, slot) { assert FrameOk(s, x); }
    forall i: nat | i < MAX_SLOTS ensures Account(t, Held(s), h', i) {
      assert Account(s, Held(s), h, i);
      assert forall x :: OnSlot(t, x, i) == OnSlot(s, x, i);
    }
  }

  lemma ReplacePendingKeeps(s: State, f: Frame, h: History)
    requires Core(s, Held(s) + {f}, h)
    ensures var t := ReplacePending(s, f).(latest := Some(f.view)); Core(t, Held(t), h)
    ensures ReplacePending(s, f) == s.(gens := ReplacePending(s, f).gens, pending := Some(f))
    ensures |ReplacePending(s, f).gens| == |s.gens|
    ensures forall i | 0 <= i < |s.gens| :: ReplacePending(s, f).gens[i].lastSerial == s.gens[i].lastSerial
  {
    assert FrameOk(s, f);
    var t := s.(pending := Some(f));
    if s.pending.Some? {
      assert Held(t) + {s.pending.value} == Held(s) + {f};
      CoreSameGens(s, t, Held(s) + {f}, h);
      SettleKeeps(t, s.pending.value, h);
    } else {
      assert Held(t) == Held(s) + {f};
      CoreSameGens(s, t, Held(s) + {f}, h);
    }
    var u := ReplacePending(s, f);
    CoreSameGens(u, u.(latest := Some(f.view)), Held(u), h);
  }

  lemma PublishKeeps(m: Model, e: Event)
    requires Inv(m) && e.EPublish?
    ensures Inv(Step(m, e))
  {
    var s, h := m.s, m.h;
    if Publishable(s, e.slot, e.serial) {
      var g := s.gens[s.ring.value];
      var f := Frame(View(e.width, e.height, g.id, e.serial, e.slot), s.ring.value);
      ConsumeKeeps(s, h, e.slot, e.serial, f);
      var u := s.(gens := s.gens[s.ring.value := g.(lastSerial := e.serial)]);
      assert Held(u) == Held(s);
      if Wanted(s, e.width, e.height, e.frameEpoch) {
        PublishAccepted(s, e, f);
        ReplacePendingKeeps(u, f, NotePublish(s, h, e));
      } else {
        PublishDiscarded(s, e);
      }
    }
  }

  lemma PublishAccepted(s: State, e: Event, f: Frame)
    requires Sound(s) && e.EPublish? && Publishable(s, e.slot, e.serial) && Wanted(s, e.width, e.height, e.frameEpoch)
    requires f == Frame(View(e.width, e.height, s.gens[s.ring.value].id, e.serial, e.slot), s.ring.value)
    ensures var u := s.(gens := s.gens[s.ring.value := s.gens[s.ring.value].(lastSerial := e.serial)]);
            && Sound(u)
            && Publish(s, e.slot, e.serial, e.width, e.height, e.frameEpoch)
               == (Accepted, ReplacePending(u, f).(latest := Some(f.view)))
  {
    var u := s.(gens := s.gens[s.ring.value := s.gens[s.ring.value].(lastSerial := e.serial)]);
    assert Held(u) == Held(s);
  }

  lemma PublishDiscarded(s: State, e: Event)
    requires Sound(s) && e.EPublish? && Publishable(s, e.slot, e.serial) && !Wanted(s, e.width, e.height, e.frameEpoch)
    ensures var g := s.gens[s.ring.value];
            Publish(s, e.slot, e.serial, e.width, e.height, e.frameEpoch)
            == (Discarded, s.(gens := s.gens[s.ring.value := g.(lastSerial := e.serial, released := g.released[e.slot := e.serial])]))
  {}

  lemma PromoteKeeps(s: State, h: History)
    requires Core(s, Held(s), h) && s.pending.Some?
    ensures Core(Promote(s), Held(Promote(s)), h)
    ensures Promote(s) == s.(gens := Promote(s).gens, current := s.pending, pending := None, preparation := Idle)
    ensures |Promote(s).gens| == |s.gens|
    ensures forall i | 0 <= i < |s.gens| :: Promote(s).gens[i].lastSerial == s.gens[i].lastSerial
  {
    var t := s.(current := s.pending, pending := None, preparation := Idle);
    if s.current.Some? {
      assert Held(t) + {s.current.value} == Held(s);
      CoreSameGens(s, t, Held(s), h);
      SettleKeeps(t, s.current.value, h);
    } else {
      assert Held(t) == Held(s);
      CoreSameGens(s, t, Held(s), h);
    }
  }

  lemma RecordKeeps(m: Model, e: Event)
    requires Inv(m) && e.ERecord?
    ensures Inv(Step(m, e))
  {
    var s, h := m.s, m.h;
    if Draws(s, e.list, e.activeGeneration, e.produced) {
      var f := Selected(s, e.activeGeneration, e.produced).value;
      assert f in Held(s) && FrameOk(s, f);
      var u, h' := AddRead(s, e.list, f), NoteRecord(s, h, e);
      CoreSameGens(s, u, Held(s), h);
      CoreHistory(u, Held(s), h, h');
      if Promotes(s, e.activeGeneration, e.produced) { PromoteKeeps(u, h'); }
    }
  }

  lemma CoreHistory(s: State, live: set<Frame>, h: History, k: History)
    requires Core(s, live, h) && k == h.(shown := k.shown, fence := k.fence)
    ensures Core(s, live, k)
  {
    if s.ring.Some? {
      forall slot: nat | slot < MAX_SLOTS ensures Account(s, live, k, slot) { assert Account(s, live, h, slot); }
    }
  }

  lemma SubmittedKeeps(m: Model, lists: set<nat>, queue: nat, value: nat)
    requires Inv(m)
    ensures Inv(Step(m, ESubmitted(lists, queue, value)))
  {
    var t := Submitted(m.s, lists, queue, value);
    SubmittedHolds(m.s, t, lists, queue, value);
    CoreSameGens(m.s, t, Held(t), m.h);
  }

  lemma {:induction false} EraseDoneKeeps(s: State, h: History, i: nat, queue: nat, value: nat)
    requires Core(s, Held(s), h) && SelectionOk(s, h) && i <= |s.gpuReads|
    ensures var t := EraseDone(s, i, queue, value); Core(t, Held(t), h) && SelectionOk(t, h)
    decreases |s.gpuReads| - i
  {
    if i < |s.gpuReads| {
      if Done(s.gpuReads[i], queue, value) {
        var u := s.(gpuReads := s.gpuReads[..i] + s.gpuReads[i + 1..]);
        var f := s.gpuReads[i].frame;
        HeldWithout(s, i);
        CoreSameGens(s, u, Held(s), h);
        SettleKeeps(u, f, h);
        EraseDoneKeeps(DropRead(s, i), h, i, queue, value);
      } else {
        EraseDoneKeeps(s, h, i + 1, queue, value);
      }
    }
  }

  lemma HeldWithout(s: State, i: nat)
    requires i < |s.gpuReads|
    ensures Held(s.(gpuReads := s.gpuReads[..i] + s.gpuReads[i + 1..])) + {s.gpuReads[i].frame} == Held(s)
  {
    var rest := s.gpuReads[..i] + s.gpuReads[i + 1..];
    forall r | r in s.gpuReads ensures r.frame in ReadFrames(rest) + {s.gpuReads[i].frame} {
      var j :| 0 <= j < |s.gpuReads| && s.gpuReads[j] == r;
      if j != i { assert r == rest[if j < i then j else j - 1]; }
    }
    assert forall r | r in rest :: r in s.gpuReads;
    assert s.gpuReads[i] in s.gpuReads;
    assert ReadFrames(rest) + {s.gpuReads[i].frame} == ReadFrames(s.gpuReads);
  }

  lemma TakeReleasesKeeps(m: Model)
    requires Inv(m)
    ensures Inv(Step(m, ETakeReleases))
  {
    var s, h := m.s, m.h;
    var t, k := TakeReleases(s).1, NoteReleases(s, h);
    assert Held(t) == Held(s);
    forall f | f in Held(t) ensures FrameOk(t, f) { assert FrameOk(s, f); }
    if s.ring.Some? {
      forall slot: nat | slot < MAX_SLOTS ensures Account(t, Held(t), k, slot) {
        assert Account(s, Held(s), h, slot);
        forall f | f in Held(s) ensures OnSlot(t, f, slot) == OnSlot(s, f, slot) {}
      }
    }
  }

  lemma StepKeeps(m: Model, e: Event)
    requires Inv(m) && ValidEvent(e)
    ensures Inv(Step(m, e))
  {
    match e
    case EBeginRing(ring) => BeginRingKeeps(m, ring);
    case EDisconnect => DisconnectKeeps(m);
    case ESetPresentation(epoch, accept) => SetPresentationKeeps(m, epoch, accept);
    case EBeginPreparation => PreparationKeeps(m, e);
    case EEndPreparation(_) => PreparationKeeps(m, e);
    case ESetVisible(visible) => SetVisibleKeeps(m, visible);
    case EPublish(_, _, _, _, _) => PublishKeeps(m, e);
    case ERecord(_, _, _) => RecordKeeps(m, e);
    case ESubmitted(lists, queue, value) => SubmittedKeeps(m, lists, queue, value);
    case ECompleted(queue, value) => if queue != 0 && value != UINT64_MAX { EraseDoneKeeps(m.s, m.h, 0, queue, value); }
    case ETakeReleases => TakeReleasesKeeps(m);
  }

  // ---- runs ----------------------------------------------------------------------------------

  const Start := Model(Initial, NoHistory)

  predicate ValidRun(es: seq<Event>) {
    forall e | e in es :: ValidEvent(e)
  }

  // The model after a sequence of calls on a new SharedFrameState.
  function Run(es: seq<Event>): (m: Model)
    requires ValidRun(es)
    ensures Inv(m)
  {
    if es == [] then Start else
    var n := |es| - 1;
    assert es[n] in es && forall e | e in es[..n] :: e in es;
    StepKeeps(Run(es[..n]), es[n]);
    Step(Run(es[..n]), es[n])
  }

  predicate RestartsHistory(e: Event) {
    e.EBeginRing? || e.EDisconnect?
  }

  function NextAcks(acks: seq<nat>, m: Model, e: Event, slot: nat): seq<nat>
    requires Sound(m.s) && slot < MAX_SLOTS
  {
    if RestartsHistory(e) then []
    else if e == ETakeReleases && Reported(m.s)[slot] > 0 then acks + [Reported(m.s)[slot]]
    else acks
  }

  // Acknowledgements the renderer has sent for a slot of the current generation, in order.
  function Acks(es: seq<Event>, slot: nat): seq<nat>
    requires ValidRun(es) && slot < MAX_SLOTS
  {
    if es == [] then [] else
    var n := |es| - 1;
    assert es[n] in es && forall e | e in es[..n] :: e in es;
    NextAcks(Acks(es[..n], slot), Run(es[..n]), es[n], slot)
  }

  function NextDrawn(drawn: seq<nat>, m: Model, e: Event): seq<nat>
    requires Sound(m.s)
  {
    if RestartsHistory(e) then []
    else if e.ERecord? && RecordOf(m.s, e).Some? then drawn + [RecordOf(m.s, e).value.frameIndex]
    else drawn
  }

  // Serials the overlay has drawn from the current generation, in order.
  function Drawn(es: seq<Event>): seq<nat>
    requires ValidRun(es)
  {
    if es == [] then [] else
    var n := |es| - 1;
    assert es[n] in es && forall e | e in es[..n] :: e in es;
    NextDrawn(Drawn(es[..n]), Run(es[..n]), es[n])
  }

  function RecordOf(s: State, e: Event): Option<View>
    requires Sound(s) && e.ERecord?
  {
    Record(s, e.list, e.activeGeneration, e.produced).0
  }

  // Frames still held on a slot of the current ring.
  function LiveOn(s: State, slot: nat): set<Frame> {
    set f | f in Held(s) && OnSlot(s, f, slot)
  }

  // In every reachable state a reported serial was published on that slot of the current generation,
  // is newer than every earlier acknowledgement of the slot, and is strictly below the serial of any
  // frame still held there, so the browser never overwrites a slot that is held.
  lemma AcknowledgementSafety(es: seq<Event>, slot: nat)
    requires ValidRun(es) && slot < MAX_SLOTS
    ensures var m := Run(es); var r := Reported(m.s)[slot];
            && (r > 0 ==> (slot, r) in m.h.published && m.h.acked[slot] < r)
            && forall f | f in LiveOn(m.s, slot) :: r < f.view.frameIndex && m.h.acked[slot] < f.view.frameIndex
    ensures var m := Run(es);
            forall f, g | f in Held(m.s) && g in Held(m.s) && f != g && f.owner == g.owner ::
              f.view.sharedSlot != g.view.sharedSlot && f.view.frameIndex != g.view.frameIndex
  {
    var m := Run(es);
    if m.s.ring.Some? { assert Account(m.s, Held(m.s), m.h, slot); }
    forall f, g | f in Held(m.s) && g in Held(m.s) && f != g && f.owner == g.owner
      ensures f.view.sharedSlot != g.view.sharedSlot && f.view.frameIndex != g.view.frameIndex
    {
      assert Apart(f, g);
    }
  }

  // The last serial consumed on a slot is held by exactly one frame, or waits to be reported, or was acknowledged.
  lemma NoSlotLeaked(es: seq<Event>, slot: nat)
    requires ValidRun(es) && slot < MAX_SLOTS && Run(es).s.ring.Some?
    ensures var m := Run(es);
            var r, a, c := Reported(m.s)[slot], m.h.acked[slot], m.h.consumed[slot];
            if LiveOn(m.s, slot) == {} then c == if r > 0 then r else a
            else exists f :: LiveOn(m.s, slot) == {f} && f.view.frameIndex == c && r < c && a < c
    ensures var m := Run(es);
            m.h.consumed[slot] == Max(LiveSerial(m.s, slot), Max(Reported(m.s)[slot], m.h.acked[slot]))
  {
    var m := Run(es);
    assert Account(m.s, Held(m.s), m.h, slot);
    if LiveOn(m.s, slot) == {} {
      forall f | f in Held(m.s) ensures !OnSlot(m.s, f, slot) { assert f !in LiveOn(m.s, slot); }
    } else {
      var f :| f in LiveOn(m.s, slot);
      forall g | g in LiveOn(m.s, slot) ensures g == f { assert Apart(f, g); }
      assert LiveOn(m.s, slot) == {f};
    }
  }

  ghost function LiveSerial(s: State, slot: nat): nat {
    if LiveOn(s, slot) == {} then 0 else (var f :| f in LiveOn(s, slot); f.view.frameIndex)
  }

  // Once nothing is selected and no read is outstanding, one TakeReleases acknowledges every consumed slot.
  lemma DrainedRingIsFullyAcknowledged(es: seq<Event>, slot: nat)
    requires ValidRun(es) && slot < MAX_SLOTS && Run(es).s.ring.Some? && Held(Run(es).s) == {}
    requires ValidRun(es + [ETakeReleases])
    ensures Run(es + [ETakeReleases]).h.acked[slot] == Run(es).h.consumed[slot]
  {
    hide Sound;
    var m := Run(es);
    assert (es + [ETakeReleases])[..|es|] == es && (es + [ETakeReleases])[|es|] == ETakeReleases;
    assert Run(es + [ETakeReleases]) == Step(m, ETakeReleases);
    EmptyAccount(m, slot);
  }

  lemma EmptyAccount(m: Model, slot: nat)
    requires Inv(m) && m.s.ring.Some? && Held(m.s) == {} && slot < MAX_SLOTS
    ensures NoteReleases(m.s, m.h).acked[slot] == m.h.consumed[slot]
  {
    assert Account(m.s, Held(m.s), m.h, slot);
  }

  // Dropping the selection and finishing the reads is enough to empty a ring: hiding forgets both selections.
  lemma HiddenRingHoldsOnlyReads(m: Model)
    requires Inv(m)
    ensures Held(SetVisible(m.s, false)) == ReadFrames(m.s.gpuReads)
  {
    var u := m.s.(visible := false);
    CoreSameGens(m.s, u, Held(u), m.h);
    InvalidateKeeps(u, m.h);
  }

  // How one step moves the history.
  lemma HistoryStep(m: Model, e: Event, slot: nat)
    requires Inv(m) && ValidEvent(e) && slot < MAX_SLOTS
    ensures var k := Step(m, e).h;
            && k.acked[slot] == (if RestartsHistory(e) then 0
                                 else if e == ETakeReleases && Reported(m.s)[slot] > 0 then Reported(m.s)[slot]
                                 else m.h.acked[slot])
            && k.shown == (if RestartsHistory(e) then 0
                           else if e.ERecord? && RecordOf(m.s, e).Some? then RecordOf(m.s, e).value.frameIndex
                           else m.h.shown)
            && (!RestartsHistory(e) ==> m.h.published <= k.published)
  {}

  // A draw shows the frame drawn before it or a newer one.
  lemma DrawAdvances(m: Model, e: Event)
    requires Inv(m) && e.ERecord? && RecordOf(m.s, e).Some?
    ensures m.h.shown <= RecordOf(m.s, e).value.frameIndex
  {}

  // `acks` strictly increases, ends in the acknowledgement the history remembers, and lists published serials.
  predicate AckLog(acks: seq<nat>, m: Model, slot: nat) {
    && slot < |m.h.acked|
    && (forall i, j | 0 <= i < j < |acks| :: acks[i] < acks[j])
    && m.h.acked[slot] == (if acks == [] then 0 else acks[|acks| - 1])
    && (forall a | a in acks :: (slot, a) in m.h.published)
  }

  lemma AckLogStep(acks: seq<nat>, m: Model, e: Event, slot: nat)
    requires Inv(m) && ValidEvent(e) && AckLog(acks, m, slot)
    requires slot < MAX_SLOTS && (Reported(m.s)[slot] > 0 ==> (slot, Reported(m.s)[slot]) in m.h.published && m.h.acked[slot] < Reported(m.s)[slot])
    ensures AckLog(NextAcks(acks, m, e, slot), Step(m, e), slot)
  {
    HistoryStep(m, e, slot);
  }

  // Each slot's acknowledgements strictly increase: no serial is acknowledged twice.
  lemma {:induction false} AcksIncrease(es: seq<Event>, slot: nat)
    requires ValidRun(es) && slot < MAX_SLOTS
    ensures AckLog(Acks(es, slot), Run(es), slot)
  {
    if es != [] {
      var n := |es| - 1;
      assert es[n] in es && forall e | e in es[..n] :: e in es;
      AcksIncrease(es[..n], slot);
      AcknowledgementSafety(es[..n], slot);
      AckLogStep(Acks(es[..n], slot), Run(es[..n]), es[n], slot);
    }
  }

  predicate DrawLog(drawn: seq<nat>, m: Model) {
    && (forall i, j | 0 <= i < j < |drawn| :: drawn[i] <= drawn[j])
    && (forall i | 0 <= i < |drawn| :: drawn[i] <= m.h.shown)
    && (drawn != [] ==> drawn[|drawn| - 1] == m.h.shown)
  }

  lemma DrawLogStep(drawn: seq<nat>, m: Model, e: Event)
    requires Inv(m) && ValidEvent(e) && DrawLog(drawn, m)
    ensures DrawLog(NextDrawn(drawn, m, e), Step(m, e))
  {
    HistoryStep(m, e, 0);
    if e.ERecord? && RecordOf(m.s, e).Some? { DrawAdvances(m, e); }
  }

  // Within a generation the overlay never steps back to an older frame.
  lemma {:induction false} DisplayIsMonotone(es: seq<Event>)
    requires ValidRun(es)
    ensures DrawLog(Drawn(es), Run(es))
  {
    if es != [] {
      var n := |es| - 1;
      assert es[n] in es && forall e | e in es[..n] :: e in es;
      DisplayIsMonotone(es[..n]);
      DrawLogStep(Drawn(es[..n]), Run(es[..n]), es[n]);
    }
  }

  // No frame is drawn before the produce fence it was promoted under reached its serial.
  lemma DrawnOnlyWhenProduced(m: Model, e: Event)
    requires Inv(m) && e.ERecord? && RecordOf(m.s, e).Some?
    ensures RecordOf(m.s, e).value.frameIndex <= Step(m, e).h.fence
    ensures Step(m, e).h.fence == e.produced || (Step(m, e).h.fence == m.h.fence && m.s.current == Step(m, e).s.current)
  {}

  // Latest() names the pending frame, or the current frame when none is pending.
  lemma LatestNamesTheSelection(es: seq<Event>)
    requires ValidRun(es) && Run(es).s.latest.Some?
    ensures var s := Run(es).s;
            if s.pending.Some? then s.latest.value == s.pending.value.view
            else s.current.Some? && s.latest.value == s.current.value.view
  {
    assert Inv(Run(es));
  }

  predicate Discards(s: State, e: Event) {
    || e.EBeginRing? || e.EDisconnect? || e.EBeginPreparation?
    || (e.ESetPresentation? && (e.epoch != s.epoch || !e.accept))
    || (e.EEndPreparation? && !e.commit) || (e.ESetVisible? && !e.visible)
  }

  // A frame published during preparation stays pending until it is drawn or discarded; no publish replaces it.
  lemma PreparedFrameIsPinned(m: Model, e: Event)
    requires Inv(m) && ValidEvent(e) && m.s.preparation != Idle && m.s.pending.Some? && !Discards(m.s, e)
    ensures var t := Step(m, e).s;
            || (t.pending == m.s.pending && t.preparation != Idle)
            || (e.ERecord? && t.current == m.s.pending && RecordOf(m.s, e) == Some(m.s.pending.value.view)
                && m.s.preparation == Committed)
  {
    match e
    case ECompleted(queue, value) => CompletedKeepsSelection(m.s, queue, value);
    case EPublish(slot, serial, width, height, epoch) =>
      if Publishable(m.s, slot, serial) { PublishDiscarded(m.s, e); }
    case ERecord(list, activeGeneration, produced) => RecordKeepsPinned(m.s, e);
    case _ =>
  }

  lemma CompletedKeepsSelection(s: State, queue: nat, value: nat)
    requires Sound(s)
    ensures var t := Completed(s, queue, value); t == s.(gens := t.gens, gpuReads := t.gpuReads)
  {
    if queue != 0 && value != UINT64_MAX { EraseDoneIsFilter(s, 0, queue, value); }
  }

  lemma RecordKeepsPinned(s: State, e: Event)
    requires Sound(s) && e.ERecord? && s.pending.Some?
    ensures var t := Record(s, e.list, e.activeGeneration, e.produced).1;
            if Draws(s, e.list, e.activeGeneration, e.produced) && Promotes(s, e.activeGeneration, e.produced)
            then t.current == s.pending && RecordOf(s, e) == Some(s.pending.value.view)
            else t.pending == s.pending && t.preparation == s.preparation
  {
    if Draws(s, e.list, e.activeGeneration, e.produced) && Promotes(s, e.activeGeneration, e.produced) {
      var u := AddRead(s, e.list, s.pending.value);
      assert u.pending == s.pending;
    }
  }

  // The state after the first i calls.
  function After(es: seq<Event>, i: nat): (s: State)
    requires ValidRun(es) && i <= |es|
    ensures Sound(s)
  {
    assert forall e | e in es[..i] :: e in es;
    Run(es[..i]).s
  }

  // A recorded list draws this frame as the first of a committed preparation.
  predicate Unveils(s: State, e: Event, f: Frame)
    requires Sound(s)
  {
    e.ERecord? && s.preparation == Committed && s.pending == Some(f) && RecordOf(s, e) == Some(f.view)
  }

  // The frame is pending and nothing published replaces it.
  predicate Pinned(s: State, f: Frame) {
    s.pending == Some(f) && s.preparation != Idle
  }

  // Once a prepared frame is reported ready at a size, then as long as nothing discards it, it either has been
  // drawn as the first frame of the committed menu, or is still pending; and when the menu is committed, the
  // next visible record under that ring draws it at that size, whatever was published meanwhile.
  lemma ReadyFrameIsDrawnFirst(es: seq<Event>, n: nat, m: nat, generation: nat, produced: nat, width: nat, height: nat)
    requires ValidRun(es) && n <= m <= |es| && PreparationReady(After(es, n), generation, produced, width, height)
    requires forall i | n <= i < m :: !Discards(After(es, i), es[i])
    ensures var f, t := After(es, n).pending.value, After(es, m);
            && f.view.width == width && f.view.height == height
            && ((exists i | n <= i < m :: Unveils(After(es, i), es[i], f))
                || (Pinned(t, f)
                    && forall list: nat, later: nat | list != 0 && later >= produced && t.visible && t.preparation == Committed ::
                         Record(t, list, generation, later).0 == Some(f.view)))
  {
    hide Run, Record, Discards, Sound;
    var f, t := After(es, n).pending.value, After(es, m);
    StaysPinned(es, n, m, f);
    if Pinned(t, f) && t.preparation == Committed && t.visible {
      forall list: nat, later: nat | list != 0 && later >= produced ensures Record(t, list, generation, later).0 == Some(f.view) {
        RecordDraws(t, list, generation, later);
      }
    }
  }

  lemma {:induction false} StaysPinned(es: seq<Event>, n: nat, m: nat, f: Frame)
    requires ValidRun(es) && n <= m <= |es| && Pinned(After(es, n), f)
    requires forall i | n <= i < m :: !Discards(After(es, i), es[i])
    ensures (exists i | n <= i < m :: Unveils(After(es, i), es[i], f)) || Pinned(After(es, m), f)
    decreases m
  {
    hide After, Discards, Pinned, Unveils, Sound;
    if m > n {
      StaysPinned(es, n, m - 1, f);
      if Pinned(After(es, m - 1), f) { PinnedStep(es, m - 1, f); }
    }
  }

  lemma PinnedStep(es: seq<Event>, i: nat, f: Frame)
    requires ValidRun(es) && i < |es| && Pinned(After(es, i), f) && !Discards(After(es, i), es[i])
    ensures Unveils(After(es, i), es[i], f) || Pinned(After(es, i + 1), f)
  {
    hide Run, Step, RecordOf, Discards, Sound;
    assert es[i] in es;
    RunStep(es, i);
    PreparedFrameIsPinned(Run(es[..i]), es[i]);
  }

  lemma RunStep(es: seq<Event>, i: nat)
    requires ValidRun(es) && i < |es|
    ensures ValidRun(es[..i]) && ValidRun(es[..i + 1]) && Run(es[..i + 1]) == Step(Run(es[..i]), es[i])
  {
    assert forall e | e in es[..i + 1] :: e in es;
    assert es[..i + 1][..i] == es[..i];
    assert forall e | e in es[..i] :: e in es;
  }

  lemma RecordDraws(s: State, list: nat, generation: nat, produced: nat)
    requires Sound(s) && s.visible && list != 0 && Promotes(s, generation, produced)
    ensures Record(s, list, generation, produced).0 == Some(s.pending.value.view)
  {
    hide Sound;
  }

  // ---- which reads leave ---------------------------------------------------------------------

  function Undone(gpuReads: seq<Read>, queue: nat, value: nat): seq<Read> {
    if gpuReads == [] then []
    else (if Done(gpuReads[0], queue, value) then [] else [gpuReads[0]]) + Undone(gpuReads[1..], queue, value)
  }

  predicate Filtered(s: State, t: State, i: nat, queue: nat, value: nat) {
    && i <= |s.gpuReads|
    && t.gpuReads == s.gpuReads[..i] + Undone(s.gpuReads[i..], queue, value)
    && t == s.(gens := t.gens, gpuReads := t.gpuReads)
  }

  lemma {:induction false} EraseDoneIsFilter(s: State, i: nat, queue: nat, value: nat)
    requires Sound(s) && i <= |s.gpuReads|
    ensures Filtered(s, EraseDone(s, i, queue, value), i, queue, value)
    decreases |s.gpuReads| - i
  {
    if i == |s.gpuReads| {
    } else if Done(s.gpuReads[i], queue, value) {
      var u := DropRead(s, i);
      DropReadFields(s, i);
      EraseDoneIsFilter(u, i, queue, value);
      FilteredDrop(s, u, EraseDone(u, i, queue, value), i, queue, value);
    } else {
      EraseDoneIsFilter(s, i + 1, queue, value);
      FilteredKeep(s, EraseDone(s, i + 1, queue, value), i, queue, value);
    }
  }

  lemma FilteredDrop(s: State, u: State, t: State, i: nat, queue: nat, value: nat)
    requires i < |s.gpuReads| && Done(s.gpuReads[i], queue, value)
    requires u == s.(gens := u.gens, gpuReads := s.gpuReads[..i] + s.gpuReads[i + 1..]) && Filtered(u, t, i, queue, value)
    ensures Filtered(s, t, i, queue, value)
  {
    assert s.gpuReads[i..][1..] == s.gpuReads[i + 1..] == u.gpuReads[i..] && u.gpuReads[..i] == s.gpuReads[..i];
  }

  lemma FilteredKeep(s: State, t: State, i: nat, queue: nat, value: nat)
    requires i < |s.gpuReads| && !Done(s.gpuReads[i], queue, value) && Filtered(s, t, i + 1, queue, value)
    ensures Filtered(s, t, i, queue, value)
  {
    assert s.gpuReads[i..][1..] == s.gpuReads[i + 1..];
    assert s.gpuReads[..i + 1] == s.gpuReads[..i] + [s.gpuReads[i]];
  }

  lemma DropReadFields(s: State, i: nat)
    requires Sound(s) && i < |s.gpuReads|
    ensures var u := DropRead(s, i);
            u == s.(gens := u.gens, gpuReads := s.gpuReads[..i] + s.gpuReads[i + 1..])
  {}

  lemma {:induction false} UndoneIn(gpuReads: seq<Read>, queue: nat, value: nat, r: Read)
    ensures r in Undone(gpuReads, queue, value) <==> r in gpuReads && !Done(r, queue, value)
  {
    if gpuReads != [] { UndoneIn(gpuReads[1..], queue, value, r); }
  }

  // A completion report removes exactly the submitted reads of its own queue whose fence value it
  // reached; queue 0 and the device-removed value remove none.
  lemma ReadsLeaveOnlyWhenComplete(s: State, queue: nat, value: nat, r: Read)
    requires Sound(s)
    ensures r in Completed(s, queue, value).gpuReads <==>
            r in s.gpuReads && (queue == 0 || value == UINT64_MAX || r.list != 0 || r.queue != queue || r.completion > value)
  {
    if queue != 0 && value != UINT64_MAX {
      EraseDoneIsFilter(s, 0, queue, value);
      UndoneIn(s.gpuReads, queue, value, r);
      assert s.gpuReads[0..] == s.gpuReads;
    }
  }
}
