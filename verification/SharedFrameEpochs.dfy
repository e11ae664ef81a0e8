// Which presentation a frame belongs to. What the renderer was asked for is read off the calls alone: the last
// ring, the last presentation epoch with its acceptance, the last visibility, the last serial consumed.
module SharedFrameEpochs {
  import opened Wrappers
  import opened SharedFrameModel
  import opened SharedFrameProofs

  // ---- what the first n calls asked for ---------------------------------------------------------------------

  function EpochAsked(es: seq<Event>, n: nat): nat
    requires n <= |es|
  {
    if n == 0 then 0
    else match es[n - 1]
      case ESetPresentation(epoch, _) => epoch
      case _ => EpochAsked(es, n - 1)
  }

  predicate AcceptAsked(es: seq<Event>, n: nat)
    requires n <= |es|
  {
    if n == 0 then false
    else match es[n - 1]
      case ESetPresentation(_, accept) => accept
      case _ => AcceptAsked(es, n - 1)
  }

  predicate VisibleAsked(es: seq<Event>, n: nat)
    requires n <= |es|
  {
    if n == 0 then false
    else match es[n - 1]
      case ESetVisible(visible) => visible
      case _ => VisibleAsked(es, n - 1)
  }

  function RingAsked(es: seq<Event>, n: nat): Option<Ring>
    requires n <= |es|
  {
    if n == 0 then None
    else match es[n - 1]
      case EBeginRing(ring) => Some(ring)
      case EDisconnect => None
      case _ => RingAsked(es, n - 1)
  }

  // A frame the ring can take: a slot it has, a serial above every one consumed before, a slot nothing holds.
  predicate Takes(es: seq<Event>, n: nat, slot: nat, serial: nat)
    requires ValidRun(es) && n <= |es|
    decreases n, 1
  {
    RingAsked(es, n).Some? && slot < RingAsked(es, n).value.slotCount && serial > SerialAsked(es, n) && !SlotHeld(After(es, n), slot)
  }

  // The last serial consumed since the ring was announced.
  function SerialAsked(es: seq<Event>, n: nat): nat
    requires ValidRun(es) && n <= |es|
    decreases n, 0
  {
    if n == 0 then 0
    else match es[n - 1]
      case EBeginRing(_) => 0
      case EDisconnect => 0
      case EPublish(slot, serial, _, _, _) => if Takes(es, n - 1, slot, serial) then serial else SerialAsked(es, n - 1)
      case _ => SerialAsked(es, n - 1)
  }

  // ---- the state is what was asked for ------------------------------------------------------------------------

  predicate RingIs(s: State, ring: Option<Ring>, serial: nat)
    requires Sound(s)
  {
    && s.ring.Some? == ring.Some?
    && (ring.Some? ==>
          var g := s.gens[s.ring.value];
          Ring(g.id, g.slotCount, g.width, g.height) == ring.value && g.lastSerial == serial)
  }

  // Generations are made by BeginRing; everything else only raises their release cells, and Publish the serial.
  predicate SameGens(s: State, t: State) {
    && t.ring == s.ring && |t.gens| == |s.gens|
    && forall i | 0 <= i < |s.gens| :: t.gens[i] == s.gens[i].(released := t.gens[i].released)
  }

  lemma SettleKeepsGens(s: State, f: Frame)
    requires Sound(s) && f.owner < |s.gens| && f.view.sharedSlot < MAX_SLOTS
    ensures SameGens(s, Settle(s, f)) && Settle(s, f) == s.(gens := Settle(s, f).gens)
  {
    hide Held;
  }

  // Dropping an owner leaves a sound state, whose dropped frame can be settled.
  lemma DropSound(s: State, t: State, f: Frame)
    requires Sound(s) && t.gens == s.gens && t.ring == s.ring && Held(t) <= Held(s) && f in Held(s)
    ensures Sound(t) && f.owner < |t.gens| && f.view.sharedSlot < MAX_SLOTS
  {}

  lemma DropsKeepGens(s: State)
    requires Sound(s)
    ensures SameGens(s, DropPending(s)) && SameGens(s, DropCurrent(s)) && SameGens(s, Invalidate(s))
    ensures DropPending(s) == s.(pending := None, gens := DropPending(s).gens)
    ensures DropCurrent(s) == s.(current := None, gens := DropCurrent(s).gens)
    ensures Invalidate(s) == s.(pending := None, current := None, latest := None, gens := Invalidate(s).gens)
  {
    hide Sound, Settle, SameGens;
    DropOneKeepsGens(s);
    DropOneKeepsGens(DropPending(s));
    SameGensTrans(s, DropPending(s), DropCurrent(DropPending(s)));
    SameGensTrans(s, DropCurrent(DropPending(s)), Invalidate(s));
  }

  lemma SameGensTrans(s: State, t: State, u: State)
    ensures SameGens(s, t) && SameGens(t, u) ==> SameGens(s, u)
    ensures t.gens == u.gens && t.ring == u.ring ==> (SameGens(s, t) <==> SameGens(s, u)) && SameGens(t, u)
  {}

  lemma DropOneKeepsGens(s: State)
    requires Sound(s)
    ensures SameGens(s, DropPending(s)) && DropPending(s) == s.(pending := None, gens := DropPending(s).gens)
    ensures SameGens(s, DropCurrent(s)) && DropCurrent(s) == s.(current := None, gens := DropCurrent(s).gens)
  {
    hide Sound, Settle;
    if s.pending.Some? {
      var t := s.(pending := None);
      assert Held(t) <= Held(s) && s.pending.value in Held(s);
      DropSound(s, t, s.pending.value);
      SettleKeepsGens(t, s.pending.value);
    }
    if s.current.Some? {
      var t := s.(current := None);
      assert Held(t) <= Held(s) && s.current.value in Held(s);
      DropSound(s, t, s.current.value);
      SettleKeepsGens(t, s.current.value);
    }
  }

  lemma DropReadKeepsGens(s: State, i: nat)
    requires Sound(s) && i < |s.gpuReads|
    ensures var t := DropRead(s, i);
            SameGens(s, t) && t == s.(gens := t.gens, gpuReads := s.gpuReads[..i] + s.gpuReads[i + 1..])
  {
    hide Sound, Settle;
    var t := s.(gpuReads := s.gpuReads[..i] + s.gpuReads[i + 1..]);
    assert s.gpuReads[i].frame in Held(s);
    assert Held(t) <= Held(s);
    DropSound(s, t, s.gpuReads[i].frame);
    SettleKeepsGens(t, s.gpuReads[i].frame);
  }

  lemma {:induction false} EraseKeepsGens(s: State, i: nat, queue: nat, value: nat)
    requires Sound(s) && i <= |s.gpuReads|
    ensures var t := EraseDone(s, i, queue, value); SameGens(s, t) && t == s.(gens := t.gens, gpuReads := t.gpuReads)
    decreases |s.gpuReads| - i
  {
    hide DropRead, Sound;
    if i < |s.gpuReads| {
      if Done(s.gpuReads[i], queue, value) {
        DropReadKeepsGens(s, i);
        SameGensTrans(s, DropRead(s, i), EraseDone(DropRead(s, i), i, queue, value));
        EraseKeepsGens(DropRead(s, i), i, queue, value);
      } else {
        EraseKeepsGens(s, i + 1, queue, value);
      }
    }
  }

  lemma RecordKeepsGens(s: State, list: nat, activeGeneration: nat, produced: nat)
    requires Sound(s)
    ensures var (r, t) := Record(s, list, activeGeneration, produced);
            && SameGens(s, t) && t.epoch == s.epoch && t.accept == s.accept && t.visible == s.visible
            && ((t.pending == s.pending && t.current == s.current) || (t.pending == None && t.current == s.pending && Promotes(s, activeGeneration, produced)))
            && (r.Some? ==> Some(r.value) == (if t.current.Some? then Some(t.current.value.view) else None))
  {
    hide Sound, Settle, HasRead, Promotes;
    if Draws(s, list, activeGeneration, produced) {
      var f := Selected(s, activeGeneration, produced).value;
      var u := AddRead(s, list, f);
      if Promotes(s, activeGeneration, produced) { PromoteKeepsGens(u); }
    }
  }

  lemma PromoteKeepsGens(s: State)
    requires Sound(s) && s.pending.Some?
    ensures var t := Promote(s);
            SameGens(s, t) && t == s.(current := s.pending, pending := None, preparation := Idle, gens := t.gens)
  {
    hide Sound, Settle;
    var t := s.(current := s.pending, pending := None, preparation := Idle);
    assert Held(t) <= Held(s);
    if s.current.Some? {
      assert s.current.value in Held(s);
      DropSound(s, t, s.current.value);
      SettleKeepsGens(t, s.current.value);
    }
  }

  lemma ReplaceKeepsGens(s: State, f: Frame)
    requires Sound(s) && f.owner < |s.gens| && f.view.sharedSlot < s.gens[f.owner].slotCount
    ensures var t := ReplacePending(s, f); SameGens(s, t) && t == s.(pending := Some(f), gens := t.gens)
  {
    hide Settle;
    var t := s.(pending := Some(f));
    assert Held(t) <= Held(s) + {f};
    if s.pending.Some? {
      assert s.pending.value in Held(s);
      SettleKeepsGens(t, s.pending.value);
    }
  }

  lemma TakeKeepsGens(s: State)
    requires Sound(s)
    ensures var t := TakeReleases(s).1; SameGens(s, t) && t == s.(gens := t.gens)
  {
    hide Held;
  }

  // What a Publish does to the selection and to the ring's generation, outcome by outcome.
  lemma PublishEffect(s: State, slot: nat, serial: nat, width: nat, height: nat, epoch: nat)
    requires Sound(s)
    ensures var (r, t) := Publish(s, slot, serial, width, height, epoch);
            && t.ring == s.ring && |t.gens| == |s.gens|
            && t == s.(gens := t.gens, pending := t.pending, latest := t.latest)
            && (r == Accepted ==>
                  && s.ring.Some? && s.ring.value < |s.gens| && s.accept && epoch == s.epoch
                  && t.pending == Some(Frame(View(width, height, s.gens[s.ring.value].id, serial, slot), s.ring.value)))
            && (r != Accepted ==> t.pending == s.pending)
            && forall i | 0 <= i < |s.gens| ::
                 t.gens[i] == s.gens[i].(released := t.gens[i].released,
                                         lastSerial := if s.ring == Some(i) && Publishable(s, slot, serial) then serial else s.gens[i].lastSerial)
  {
    hide SlotHeld, ReplacePending;
    if Publishable(s, slot, serial) {
      var g := s.gens[s.ring.value];
      if Wanted(s, width, height, epoch) {
        var u := s.(gens := s.gens[s.ring.value := g.(lastSerial := serial)]);
        assert Held(u) == Held(s);
        ReplaceKeepsGens(u, Frame(View(width, height, g.id, serial, slot), s.ring.value));
      }
    }
  }

  // ---- one call -------------------------------------------------------------------------------------------------

  predicate Changes(s: State, e: Event) {
    e.ESetPresentation? && (e.epoch != s.epoch || !e.accept)
  }

  // Where what is selected after a call comes from.
  predicate Selects(s: State, e: Event, t: State) {
    && (t.pending.Some? ==>
          || (t.pending == s.pending && !RestartsHistory(e) && !Changes(s, e))
          || (e.EPublish? && s.ring.Some? && s.ring.value < |s.gens| && s.accept && e.frameEpoch == s.epoch
              && t.pending.value.view == View(e.width, e.height, s.gens[s.ring.value].id, e.serial, e.slot)))
    && (t.current.Some? ==>
          || (t.current == s.current && !RestartsHistory(e) && (Changes(s, e) ==> s.preparation == Rendering))
          || (e.ERecord? && t.current == s.pending))
  }

  lemma StepSelects(m: Model, e: Event)
    requires Inv(m) && ValidEvent(e)
    ensures Selects(m.s, e, Step(m, e).s)
  {
    hide Core, SelectionOk, Sound, Held, Invalidate, DropPending, DropCurrent, Publish, Record, TakeReleases, EraseDone;
    assert Sound(m.s) by { SoundModel(m); }
    DropsKeepGens(m.s);
    match e
    case EBeginPreparation => PreparationSound(m.s); DropsKeepGens(m.s.(preparation := Rendering));
    case ESetPresentation(_, _) => DropsKeepGens(DropPending(m.s));
    case ESetVisible(visible) => VisibleSound(m.s, visible); DropsKeepGens(m.s.(visible := visible));
    case EPublish(slot, serial, width, height, epoch) => PublishEffect(m.s, slot, serial, width, height, epoch);
    case ERecord(list, activeGeneration, produced) => RecordKeepsGens(m.s, list, activeGeneration, produced);
    case ECompleted(queue, value) => if queue != 0 && value != UINT64_MAX { EraseKeepsGens(m.s, 0, queue, value); }
    case ETakeReleases => TakeKeepsGens(m.s);
    case _ =>
  }

  lemma SoundModel(m: Model)
    requires Inv(m)
    ensures Sound(m.s)
  {}

  lemma PreparationSound(s: State)
    requires Sound(s)
    ensures Sound(s.(preparation := Rendering))
  {
    assert Held(s.(preparation := Rendering)) == Held(s);
  }

  lemma VisibleSound(s: State, visible: bool)
    requires Sound(s)
    ensures Sound(s.(visible := visible))
  {
    assert Held(s.(visible := visible)) == Held(s);
  }

  // ---- every run ------------------------------------------------------------------------------------------------

  // The state after the first n calls is the one they asked for.
  ghost predicate AsAsked(es: seq<Event>, n: nat)
    requires ValidRun(es) && n <= |es|
  {
    var s := After(es, n);
    && s.epoch == EpochAsked(es, n) && s.accept == AcceptAsked(es, n) && s.visible == VisibleAsked(es, n)
    && RingIs(s, RingAsked(es, n), SerialAsked(es, n))
  }

  // How the asked fields move with one call.
  predicate Follows(s: State, e: Event, t: State)
    requires Sound(s) && Sound(t)
  {
    && t.epoch == (if e.ESetPresentation? then e.epoch else s.epoch)
    && t.accept == (if e.ESetPresentation? then e.accept else s.accept)
    && t.visible == (if e.ESetVisible? then e.visible else s.visible)
    && (if e.EBeginRing? then RingIs(t, Some(e.ring), 0)
        else if e.EDisconnect? then t.ring == None
        else t.ring == s.ring && |t.gens| == |s.gens| &&
             forall i | 0 <= i < |s.gens| ::
               t.gens[i] == s.gens[i].(released := t.gens[i].released,
                                       lastSerial := if e.EPublish? && s.ring == Some(i) && Publishable(s, e.slot, e.serial) then e.serial else s.gens[i].lastSerial))
  }

  lemma StepFollows(m: Model, e: Event)
    requires Inv(m) && ValidEvent(e)
    ensures Follows(m.s, e, Step(m, e).s)
  {
    hide Core, SelectionOk, Sound, Held, Invalidate, DropPending, DropCurrent, Publish, Record, TakeReleases, EraseDone, Publishable;
    assert Sound(m.s) by { SoundModel(m); }
    DropsKeepGens(m.s);
    match e
    case EBeginPreparation => PreparationSound(m.s); DropsKeepGens(m.s.(preparation := Rendering));
    case ESetPresentation(_, _) => DropsKeepGens(DropPending(m.s));
    case ESetVisible(visible) => VisibleSound(m.s, visible); DropsKeepGens(m.s.(visible := visible));
    case EPublish(slot, serial, width, height, epoch) => PublishEffect(m.s, slot, serial, width, height, epoch);
    case ERecord(list, activeGeneration, produced) => RecordKeepsGens(m.s, list, activeGeneration, produced);
    case ECompleted(queue, value) => if queue != 0 && value != UINT64_MAX { EraseKeepsGens(m.s, 0, queue, value); }
    case ETakeReleases => TakeKeepsGens(m.s);
    case _ =>
  }

  // Whatever the calls, the epoch, acceptance, visibility and ring in force are those last asked for.
  lemma {:induction false} StateIsAsAsked(es: seq<Event>, n: nat)
    requires ValidRun(es) && n <= |es|
    ensures AsAsked(es, n)
    decreases n
  {
    hide Inv, Sound, Step, SlotHeld, Follows;
    if n == 0 {
      assert es[..0] == [];
      assert After(es, 0) == Initial;
    } else {
      StateIsAsAsked(es, n - 1);
      assert es[n - 1] in es;
      RunStep(es, n - 1);
      StepFollows(Run(es[..n - 1]), es[n - 1]);
      AskedMoves(es, n, After(es, n - 1), After(es, n));
    }
  }

  lemma AskedMoves(es: seq<Event>, n: nat, s: State, t: State)
    requires ValidRun(es) && 0 < n <= |es| && s == After(es, n - 1) && t == After(es, n)
    requires AsAsked(es, n - 1) && Follows(s, es[n - 1], t)
    ensures AsAsked(es, n)
  {
    hide Run, SlotHeld, Sound, RingIs, Publishable, Takes;
    match es[n - 1]
    case EPublish(slot, serial, _, _, _) =>
      TakesIsPublishable(es, n - 1, slot, serial);
      RingPublished(s, es[n - 1], t, RingAsked(es, n - 1), SerialAsked(es, n - 1));
    case EBeginRing(_) =>
    case EDisconnect => NoRing(t, SerialAsked(es, n));
    case _ => RingStays(s, es[n - 1], t, RingAsked(es, n - 1), SerialAsked(es, n - 1));
  }

  lemma RingStays(s: State, e: Event, t: State, ring: Option<Ring>, serial: nat)
    requires Sound(s) && Sound(t) && Follows(s, e, t) && !RestartsHistory(e) && !e.EPublish? && RingIs(s, ring, serial)
    ensures RingIs(t, ring, serial)
  {}

  lemma NoRing(s: State, serial: nat)
    requires Sound(s) && s.ring == None
    ensures RingIs(s, None, serial)
  {}

  lemma RingPublished(s: State, e: Event, t: State, ring: Option<Ring>, serial: nat)
    requires Sound(s) && Sound(t) && Follows(s, e, t) && e.EPublish? && RingIs(s, ring, serial)
    ensures RingIs(t, ring, if Publishable(s, e.slot, e.serial) then e.serial else serial)
  {
    hide Publishable;
  }

  lemma TakesIsPublishable(es: seq<Event>, n: nat, slot: nat, serial: nat)
    requires ValidRun(es) && n <= |es| && RingIs(After(es, n), RingAsked(es, n), SerialAsked(es, n))
    ensures Takes(es, n, slot, serial) <==> Publishable(After(es, n), slot, serial)
  {
    hide Run, SlotHeld;
  }

  // ---- where a frame comes from ----------------------------------------------------------------------------------

  // The call at i published this frame into the ring then in force.
  predicate Publishes(es: seq<Event>, i: nat, f: Frame)
    requires i < |es|
  {
    var e := es[i];
    e.EPublish? && RingAsked(es, i).Some? && f.view == View(e.width, e.height, RingAsked(es, i).value.generation, e.serial, e.slot)
  }

  // The frame was published by the call at i, under this ring.
  predicate Born(es: seq<Event>, i: nat, n: nat, f: Frame)
    requires n <= |es|
  {
    i < n && Publishes(es, i, f) && forall k | i < k < n :: !RestartsHistory(es[k])
  }

  predicate OfAskedEpoch(es: seq<Event>, i: nat, n: nat)
    requires i < n <= |es|
  {
    es[i].EPublish? && es[i].frameEpoch == EpochAsked(es, n) && AcceptAsked(es, n)
  }

  // A presentation change at j while a preparation was rendering, which keeps the displayed frame.
  predicate KeptAt(es: seq<Event>, j: nat)
    requires ValidRun(es) && j < |es|
  {
    es[j].ESetPresentation? && (es[j].epoch != EpochAsked(es, j) || !es[j].accept) && After(es, j).preparation == Rendering
  }

  predicate Lawful(es: seq<Event>, i: nat, n: nat, f: Frame)
    requires ValidRun(es) && n <= |es|
  {
    Born(es, i, n, f) && (OfAskedEpoch(es, i, n) || exists j | i < j < n :: KeptAt(es, j))
  }

  // A frame in flight from an older presentation never becomes pending: what is pending was published, since the
  // ring was announced, under the epoch last asked for, with frames accepted.
  lemma {:induction false} PendingIsOfTheAskedEpoch(es: seq<Event>, n: nat)
    requires ValidRun(es) && n <= |es| && After(es, n).pending.Some?
    ensures exists i: nat :: Born(es, i, n, After(es, n).pending.value) && OfAskedEpoch(es, i, n)
    decreases n
  {
    hide Inv, Sound, Step, Publishes;
    if n > 0 {
      var s, e, t := After(es, n - 1), es[n - 1], After(es, n);
      assert e in es;
      RunStep(es, n - 1);
      StepSelects(Run(es[..n - 1]), e);
      StateIsAsAsked(es, n - 1);
      var f := t.pending.value;
      if e.EPublish? && t.pending != s.pending {
        NewlyBorn(es, n, f);
        assert Born(es, n - 1, n, f) && OfAskedEpoch(es, n - 1, n);
      } else if t.pending == s.pending && !RestartsHistory(e) && !Changes(s, e) {
        PendingIsOfTheAskedEpoch(es, n - 1);
        var i: nat :| Born(es, i, n - 1, f) && OfAskedEpoch(es, i, n - 1);
        assert Born(es, i, n, f) && OfAskedEpoch(es, i, n);
      } else {
        NewlyBorn(es, n, f);
        assert Born(es, n - 1, n, f) && OfAskedEpoch(es, n - 1, n);
      }
    }
  }

  lemma NewlyBorn(es: seq<Event>, n: nat, f: Frame)
    requires ValidRun(es) && 0 < n <= |es| && AsAsked(es, n - 1)
    requires var s, e := After(es, n - 1), es[n - 1];
             e.EPublish? && s.ring.Some? && s.ring.value < |s.gens| && s.accept && e.frameEpoch == s.epoch
             && f.view == View(e.width, e.height, s.gens[s.ring.value].id, e.serial, e.slot)
    ensures Born(es, n - 1, n, f) && OfAskedEpoch(es, n - 1, n)
  {
    hide Run;
  }

  // So is the displayed frame, unless a preparation kept it across a presentation change.
  lemma {:induction false} CurrentIsLawful(es: seq<Event>, n: nat)
    requires ValidRun(es) && n <= |es| && After(es, n).current.Some?
    ensures exists i: nat :: Lawful(es, i, n, After(es, n).current.value)
    decreases n
  {
    hide Inv, Sound, Step, Publishes;
    if n > 0 {
      var s, e, t := After(es, n - 1), es[n - 1], After(es, n);
      assert e in es;
      RunStep(es, n - 1);
      StepSelects(Run(es[..n - 1]), e);
      StateIsAsAsked(es, n - 1);
      var f := t.current.value;
      if e.ERecord? && t.current == s.pending {
        PendingIsOfTheAskedEpoch(es, n - 1);
        var i: nat :| Born(es, i, n - 1, f) && OfAskedEpoch(es, i, n - 1);
        assert Lawful(es, i, n, f);
      } else {
        CurrentIsLawful(es, n - 1);
        var i: nat :| Lawful(es, i, n - 1, f);
        StaysLawful(es, i, n, f);
      }
    }
  }

  lemma StaysLawful(es: seq<Event>, i: nat, n: nat, f: Frame)
    requires ValidRun(es) && 0 < n <= |es| && Lawful(es, i, n - 1, f) && AsAsked(es, n - 1) && !RestartsHistory(es[n - 1])
    requires Changes(After(es, n - 1), es[n - 1]) ==> After(es, n - 1).preparation == Rendering
    ensures Lawful(es, i, n, f)
  {
    hide Run, Publishes, KeptAt;
    if Changes(After(es, n - 1), es[n - 1]) {
      KeptNow(es, n - 1);
    } else if OfAskedEpoch(es, i, n - 1) {
      EpochStays(es, i, n);
    } else {
      var j :| i < j < n - 1 && KeptAt(es, j);
    }
  }

  lemma KeptNow(es: seq<Event>, j: nat)
    requires ValidRun(es) && j < |es| && AsAsked(es, j) && Changes(After(es, j), es[j]) && After(es, j).preparation == Rendering
    ensures KeptAt(es, j)
  {
    hide Run;
  }

  lemma EpochStays(es: seq<Event>, i: nat, n: nat)
    requires ValidRun(es) && i + 1 < n <= |es| && OfAskedEpoch(es, i, n - 1) && AsAsked(es, n - 1) && !Changes(After(es, n - 1), es[n - 1])
    ensures OfAskedEpoch(es, i, n)
  {
    hide Run, Takes;
  }

  // What a Record draws was published under the epoch last asked for, or a preparation kept it since.
  lemma DrawnIsLawful(es: seq<Event>, n: nat, list: nat, generation: nat, produced: nat)
    requires ValidRun(es) && n <= |es| && Record(After(es, n), list, generation, produced).0.Some?
    ensures exists i: nat, f: Frame :: Lawful(es, i, n, f) && Record(After(es, n), list, generation, produced).0 == Some(f.view)
  {
    hide Inv, Sound, Publishes, Run, Record;
    var s := After(es, n);
    DrawnIsSelected(s, list, generation, produced);
    if s.pending.Some? && Record(s, list, generation, produced).0 == Some(s.pending.value.view) {
      PendingIsOfTheAskedEpoch(es, n);
      var i: nat :| Born(es, i, n, s.pending.value) && OfAskedEpoch(es, i, n);
      assert Lawful(es, i, n, s.pending.value);
    } else {
      CurrentIsLawful(es, n);
    }
  }

  lemma DrawnIsSelected(s: State, list: nat, generation: nat, produced: nat)
    requires Sound(s) && Record(s, list, generation, produced).0.Some?
    ensures var v := Record(s, list, generation, produced).0;
            (s.pending.Some? && v == Some(s.pending.value.view)) || (s.current.Some? && v == Some(s.current.value.view))
  {
    hide Sound;
  }

  // ---- and the converse ------------------------------------------------------------------------------------------

  // A frame the ring can take is accepted exactly when frames are, it is of the epoch last asked for and of the
  // ring's size, and no prepared frame is pinned; it is then the pending one. Any other is discarded, unless it
  // names no slot, no serial or a slot still held.
  lemma AcceptedExactlyWhen(es: seq<Event>, n: nat, slot: nat, serial: nat, width: nat, height: nat, epoch: nat)
    requires ValidRun(es) && n <= |es|
    ensures var s, ring := After(es, n), RingAsked(es, n);
            var (r, t) := Publish(s, slot, serial, width, height, epoch);
            && (r == Accepted <==>
                  && Takes(es, n, slot, serial) && AcceptAsked(es, n) && epoch == EpochAsked(es, n)
                  && width == ring.value.width && height == ring.value.height && (s.preparation == Idle || s.pending.None?))
            && (r == Invalid <==>
                  ring.None? || slot >= ring.value.slotCount || serial == 0 || (serial > SerialAsked(es, n) && SlotHeld(s, slot)))
            && (r == Accepted ==> t.pending.Some? && t.pending.value.view == View(width, height, ring.value.generation, serial, slot)
                                  && t.latest == Some(t.pending.value.view))
  {
    hide Run, SlotHeld, ReplacePending;
    StateIsAsAsked(es, n);
    PublishEffect(After(es, n), slot, serial, width, height, epoch);
  }

  // With frames visible and a list, a Record draws exactly when something selected belongs to the imported ring:
  // the pending frame once it is produced and no preparation is rendering, else the displayed one.
  lemma DrawsExactlyWhen(es: seq<Event>, n: nat, list: nat, generation: nat, produced: nat)
    requires ValidRun(es) && n <= |es|
    ensures var s := After(es, n); var v := Record(s, list, generation, produced).0;
            var ready := s.pending.Some? && s.preparation != Rendering && s.pending.value.view.ringGeneration == generation && s.pending.value.view.frameIndex <= produced;
            if !VisibleAsked(es, n) || list == 0 then v == None
            else if ready then v == Some(s.pending.value.view)
            else if s.current.Some? && s.current.value.view.ringGeneration == generation then v == Some(s.current.value.view)
            else v == None
  {
    hide Run;
    StateIsAsAsked(es, n);
  }

  // Preparation moves as asked, and ends with the first draw of a committed frame; what is selected stays unless
  // the call discards it, publishes a frame that is accepted, or draws the pending one.
  lemma PreparationFollows(es: seq<Event>, n: nat)
    requires ValidRun(es) && n < |es|
    ensures var s, e, t := After(es, n), es[n], After(es, n + 1);
            var promotes := e.ERecord? && VisibleAsked(es, n) && e.list != 0 && s.preparation != Rendering && s.pending.Some?
                            && s.pending.value.view.ringGeneration == e.activeGeneration && s.pending.value.view.frameIndex <= e.produced;
            && t.preparation == (match e
                 case EBeginPreparation => Rendering
                 case EEndPreparation(commit) => if commit then Committed else Idle
                 case _ => if promotes then Idle else s.preparation)
            && (promotes ==> t.pending == None && t.current == s.pending)
            && (!Discards(s, e) && !promotes ==>
                  && t.current == s.current
                  && (t.pending == s.pending || (e.EPublish? && Publish(s, e.slot, e.serial, e.width, e.height, e.frameEpoch).0 == Accepted)))
  {
    hide Run, Inv, Sound, Step, Discards, Publish;
    assert es[n] in es;
    RunStep(es, n);
    StateIsAsAsked(es, n);
    PreparationStep(Run(es[..n]), es[n]);
  }

  lemma PreparationStep(m: Model, e: Event)
    requires Inv(m) && ValidEvent(e)
    ensures var s, t := m.s, Step(m, e).s;
            var promotes := e.ERecord? && s.visible && e.list != 0 && Promotes(s, e.activeGeneration, e.produced);
            && t.preparation == (match e
                 case EBeginPreparation => Rendering
                 case EEndPreparation(commit) => if commit then Committed else Idle
                 case _ => if promotes then Idle else s.preparation)
            && (promotes ==> t.pending == None && t.current == s.pending)
            && (!Discards(s, e) && !promotes ==>
                  && t.current == s.current
                  && (t.pending == s.pending || (e.EPublish? && Publish(s, e.slot, e.serial, e.width, e.height, e.frameEpoch).0 == Accepted)))
  {
    hide Core, SelectionOk, Sound, Held, Invalidate, DropPending, DropCurrent, Publish, Record, TakeReleases, EraseDone;
    assert Sound(m.s) by { SoundModel(m); }
    DropsKeepGens(m.s);
    match e
    case EBeginPreparation => PreparationSound(m.s); DropsKeepGens(m.s.(preparation := Rendering));
    case ESetPresentation(_, _) => DropsKeepGens(DropPending(m.s));
    case ESetVisible(visible) => VisibleSound(m.s, visible); DropsKeepGens(m.s.(visible := visible));
    case EPublish(slot, serial, width, height, epoch) => PublishEffect(m.s, slot, serial, width, height, epoch);
    case ERecord(list, activeGeneration, produced) => RecordMoves(m.s, list, activeGeneration, produced);
    case ECompleted(queue, value) => if queue != 0 && value != UINT64_MAX { EraseKeepsGens(m.s, 0, queue, value); }
    case ETakeReleases => TakeKeepsGens(m.s);
    case _ =>
  }

  lemma RecordMoves(s: State, list: nat, activeGeneration: nat, produced: nat)
    requires Sound(s)
    ensures var t := Record(s, list, activeGeneration, produced).1;
            if s.visible && list != 0 && Promotes(s, activeGeneration, produced)
            then t.pending == None && t.current == s.pending && t.preparation == Idle
            else t.pending == s.pending && t.current == s.current && t.preparation == s.preparation
  {
    hide Sound, Settle, HasRead, Held;
    if Draws(s, list, activeGeneration, produced) && Promotes(s, activeGeneration, produced) {
      assert Sound(AddRead(s, list, s.pending.value)) by { assert s.pending.value in Held(s) by { PendingIsHeld(s); } }
      PromoteKeepsGens(AddRead(s, list, s.pending.value));
    }
  }

  lemma PendingIsHeld(s: State)
    requires s.pending.Some?
    ensures s.pending.value in Held(s)
  {}

  // A frame that is accepted while a preparation is rendering is the prepared one: it is ready for its ring's textures
  // and its size, and no others, exactly from when the browser has produced it.
  lemma PreparedFrameIsReadyExactlyWhenProduced(es: seq<Event>, n: nat, generation: nat, produced: nat, width: nat, height: nat)
    requires ValidRun(es) && n < |es| && es[n].EPublish? && After(es, n).preparation == Rendering
    requires var s, e := After(es, n), es[n]; Publish(s, e.slot, e.serial, e.width, e.height, e.frameEpoch).0 == Accepted
    ensures var e, ring := es[n], RingAsked(es, n);
            PreparationReady(After(es, n + 1), generation, produced, width, height) <==>
              ring.Some? && generation == ring.value.generation && e.serial <= produced != UINT64_MAX && width == e.width && height == e.height
  {
    hide Run, Inv, Step, Publish, ReplacePending, Sound;
    var s, e := After(es, n), es[n];
    AcceptedExactlyWhen(es, n, e.slot, e.serial, e.width, e.height, e.frameEpoch);
    PublishSteps(es, n);
    PublishKeepsPreparation(s, e);
  }

  lemma PublishSteps(es: seq<Event>, n: nat)
    requires ValidRun(es) && n < |es| && es[n].EPublish?
    ensures var s, e := After(es, n), es[n]; After(es, n + 1) == Publish(s, e.slot, e.serial, e.width, e.height, e.frameEpoch).1
  {
    hide Publish, Inv, Sound, Run;
    assert es[n] in es;
    RunStep(es, n);
  }

  lemma PublishKeepsPreparation(s: State, e: Event)
    requires Sound(s) && e.EPublish?
    ensures Publish(s, e.slot, e.serial, e.width, e.height, e.frameEpoch).1.preparation == s.preparation
  {
    hide Sound;
  }
}
