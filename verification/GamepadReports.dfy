// What the frames of a session report, over every run of samples in any modes: read off the samples alone.
module GamepadReports {
  import opened Wrappers
  import opened GamepadModel
  import GamepadProofs

  datatype Tick = Tick(sample: Sample, mode: Mode, now: real)

  // The session after the first n samples.
  function SessionAt(ticks: seq<Tick>, n: nat): Session
    requires n <= |ticks|
  {
    if n == 0 then Ended else Update(SessionAt(ticks, n - 1), ticks[n - 1].sample, ticks[n - 1].mode, ticks[n - 1].now).1
  }

  function FrameAt(ticks: seq<Tick>, n: nat): Frame
    requires n < |ticks|
  {
    Update(SessionAt(ticks, n), ticks[n].sample, ticks[n].mode, ticks[n].now).0
  }

  // ---- buttons -------------------------------------------------------------------------------------------------

  lemma {:induction false} SampleIsRemembered(ticks: seq<Tick>, n: nat)
    requires n <= |ticks|
    ensures var s := SessionAt(ticks, n);
            && s.active == (n > 0)
            && (n > 0 ==> s.buttons == ticks[n - 1].sample.buttons && s.mode == ticks[n - 1].mode && s.lastSampleTime == ticks[n - 1].now)
  {
    hide Edges, DpadPressed, NavX, NavY, NavUpdate, AxesChanged, Scroll, ScrollDelta;
  }

  // What pressing a button asks for outside raw mode: the D-pad moves, A activates, B goes back.
  function Asks(id: nat): Action {
    match id
    case 0x0001 => Go(Up)
    case 0x0002 => Go(Down)
    case 0x0004 => Go(Left)
    case 0x0008 => Go(Right)
    case 0x1000 => Activate
    case 0x2000 => Back
    case _ => NoAction
  }

  predicate Pressed(ticks: seq<Tick>, n: nat, id: nat)
    requires 0 < n < |ticks|
  {
    id in ticks[n].sample.buttons && id !in ticks[n - 1].sample.buttons
  }

  predicate ReleasedAt(ticks: seq<Tick>, n: nat, id: nat)
    requires 0 < n < |ticks|
  {
    id !in ticks[n].sample.buttons && id in ticks[n - 1].sample.buttons
  }

  lemma {:induction false} EdgeIs(before: set<nat>, after: set<nat>, mode: Mode, masks: seq<nat>, e: ButtonEdge)
    requires e in Edges(before, after, mode, masks)
    ensures e == ButtonEdge(e.id, e.id in after, if mode != Raw && e.id in after then Asks(e.id) else NoAction) && Changed(before, after, e.id) && e.id in masks
    decreases |masks|
  {
    var front, last := masks[..|masks| - 1], masks[|masks| - 1];
    TakenApart(masks);
    if e in Edges(before, after, mode, front) { EdgeIs(before, after, mode, front, e); }
  }

  // The first frame of a session reports no button; every later one reports exactly the buttons pressed or released
  // since the sample before it, a press outside raw mode with what it asks for.
  lemma {:induction false} FrameReportsTheChanges(ticks: seq<Tick>, n: nat, e: ButtonEdge)
    requires n < |ticks|
    ensures e in FrameAt(ticks, n).edges <==>
              n > 0 && e.id in BUTTON_MASKS
              && (if Pressed(ticks, n, e.id) then e.down && e.action == (if ticks[n].mode != Raw then Asks(e.id) else NoAction)
                  else ReleasedAt(ticks, n, e.id) && !e.down && e.action == NoAction)
  {
    SampleIsRemembered(ticks, n);
    FrameEdges(SessionAt(ticks, n), ticks[n]);
    hide SessionAt, Edges, FrameAt;
    var s, t := SessionAt(ticks, n), ticks[n];
    if n > 0 {
      GamepadProofs.EdgesAreTheChanges(s.buttons, t.sample.buttons, t.mode, BUTTON_MASKS, e.id, e.down);
      if e in Edges(s.buttons, t.sample.buttons, t.mode, BUTTON_MASKS) { EdgeIs(s.buttons, t.sample.buttons, t.mode, BUTTON_MASKS, e); }
      if f :| f in Edges(s.buttons, t.sample.buttons, t.mode, BUTTON_MASKS) && f.id == e.id && f.down == e.down {
        EdgeIs(s.buttons, t.sample.buttons, t.mode, BUTTON_MASKS, f);
      }
      FrameIs(ticks, n);
    } else {
      FrameIs(ticks, n);
    }
  }

  lemma {:induction false} FrameIs(ticks: seq<Tick>, n: nat)
    requires n < |ticks|
    ensures FrameAt(ticks, n) == Update(SessionAt(ticks, n), ticks[n].sample, ticks[n].mode, ticks[n].now).0
  {}

  lemma FrameEdges(s: Session, t: Tick)
    ensures Update(s, t.sample, t.mode, t.now).0.edges == if s.active then Edges(s.buttons, t.sample.buttons, t.mode, BUTTON_MASKS) else []
  {
    hide Edges, DpadPressed, NavX, NavY, NavUpdate, AxesChanged, Scroll, ScrollDelta;
  }

  // ---- axes ------------------------------------------------------------------------------------------------------

  predicate Near(a: Axes, b: Axes) {
    Abs(a.lx - b.lx) <= 0.04 && Abs(a.ly - b.ly) <= 0.04 && Abs(a.rx - b.rx) <= 0.04 && Abs(a.ry - b.ry) <= 0.04
  }

  // The axes a page that listens to changes has after n frames.
  function LastReported(ticks: seq<Tick>, n: nat): Axes
    requires n <= |ticks|
  {
    if n == 0 then Axes(0.0, 0.0, 0.0, 0.0)
    else if FrameAt(ticks, n - 1).axesChanged then FrameAt(ticks, n - 1).axes
    else LastReported(ticks, n - 1)
  }

  lemma FrameAxes(s: Session, t: Tick)
    ensures var (frame, u) := Update(s, t.sample, t.mode, t.now);
            frame.axes == t.sample.axes && frame.axesChanged == !Near(t.sample.axes, s.published)
            && u.published == if frame.axesChanged then t.sample.axes else s.published
  {
    hide Edges, DpadPressed, NavX, NavY, NavUpdate, Scroll, ScrollDelta;
  }

  // Every frame carries the stick as sampled and is marked as a change exactly when it is more than 0.04 off what was
  // last reported; so a page that listens to changes is never further off than that.
  lemma {:induction false} ReportedAxesAreNear(ticks: seq<Tick>, n: nat)
    requires n < |ticks|
    ensures FrameAt(ticks, n).axes == ticks[n].sample.axes
    ensures FrameAt(ticks, n).axesChanged <==> !Near(ticks[n].sample.axes, LastReported(ticks, n))
    ensures Near(ticks[n].sample.axes, LastReported(ticks, n + 1))
    ensures SessionAt(ticks, n).published == LastReported(ticks, n)
  {
    hide Update;
    if n > 0 {
      ReportedAxesAreNear(ticks, n - 1);
      FrameAxes(SessionAt(ticks, n - 1), ticks[n - 1]);
    }
    FrameAxes(SessionAt(ticks, n), ticks[n]);
  }

  // ---- navigation --------------------------------------------------------------------------------------------------

  predicate Dpad(id: nat) {
    id == 0x0001 || id == 0x0002 || id == 0x0004 || id == 0x0008
  }

  // The stick engages the axis of the larger deflection once that is 0.55, the vertical one when they are equal.
  lemma EngagedIsTheLargerAxis(lx: real, ly: real)
    ensures Engaged(lx, ly).None? <==> Abs(lx) < 0.55 && Abs(ly) < 0.55
    ensures Engaged(lx, ly).Some? ==>
              var d := Engaged(lx, ly).value;
              Directed(d, lx, ly) >= Abs(lx) && Directed(d, lx, ly) >= Abs(ly) && (Abs(lx) == Abs(ly) ==> d == Up || d == Down)
  {}

  // A D-pad press moves by its own edge and not by the stick pulse of the same frame, and one that was held as the
  // session began moves nothing in the first frame.
  lemma {:induction false} DpadPressMovesOnce(ticks: seq<Tick>, n: nat, id: nat)
    requires n < |ticks| && Dpad(id) && id in ticks[n].sample.buttons && (n > 0 ==> Pressed(ticks, n, id))
    ensures FrameAt(ticks, n).navigation == NoAction
  {
    var s, t := SessionAt(ticks, n), ticks[n];
    SampleIsRemembered(ticks, n);
    if n > 0 {
      assert id in BUTTON_MASKS by { DpadIsReported(id); }
      FrameReportsTheChanges(ticks, n, ButtonEdge(id, true, if t.mode != Raw then Asks(id) else NoAction));
      assert exists e | e in FrameAt(ticks, n).edges :: e.down && e.id == id;
    }
    hide SessionAt, Edges, NavX, NavY, NavUpdate, AxesChanged, Scroll, ScrollDelta;
  }

  lemma DpadIsReported(id: nat)
    requires Dpad(id)
    ensures id in BUTTON_MASKS
  {
    assert BUTTON_MASKS[0] == 0x0001 && BUTTON_MASKS[1] == 0x0002 && BUTTON_MASKS[2] == 0x0004 && BUTTON_MASKS[3] == 0x0008;
  }

  // A mode is entered with the first sample and with every sample in another mode than the one before it.
  predicate Enters(ticks: seq<Tick>, n: nat)
    requires n < |ticks|
  {
    n == 0 || ticks[n].mode != ticks[n - 1].mode
  }

  // The hold a frame goes on with: none on entering a mode, and raw mode leaves it as it was.
  function HoldBefore(ticks: seq<Tick>, n: nat): Nav
    requires n < |ticks|
    decreases n, 0
  {
    if Enters(ticks, n) then Released else HoldAfter(ticks, n - 1)
  }

  function HoldAfter(ticks: seq<Tick>, n: nat): Nav
    requires n < |ticks|
    decreases n, 1
  {
    var t := ticks[n];
    if t.mode == Raw then HoldBefore(ticks, n) else NavUpdate(HoldBefore(ticks, n), NavX(t.sample, t.mode), NavY(t.sample, t.mode), t.now).1
  }

  lemma UpdateHolds(s: Session, t: Tick)
    ensures var u := Update(s, t.sample, t.mode, t.now).1;
            var before := if s.active && s.mode != t.mode then Released else s.nav;
            u.nav == if t.mode == Raw then before else NavUpdate(before, NavX(t.sample, t.mode), NavY(t.sample, t.mode), t.now).1
  {
    hide Edges, DpadPressed, NavX, NavY, NavUpdate, AxesChanged, Scroll, ScrollDelta;
  }

  lemma {:induction false} HoldIsRemembered(ticks: seq<Tick>, n: nat)
    requires n < |ticks|
    ensures SessionAt(ticks, n + 1).nav == HoldAfter(ticks, n)
    ensures (if SessionAt(ticks, n).active && SessionAt(ticks, n).mode != ticks[n].mode then Released else SessionAt(ticks, n).nav) == HoldBefore(ticks, n)
  {
    hide Update, NavUpdate;
    SampleIsRemembered(ticks, n);
    if n > 0 { HoldIsRemembered(ticks, n - 1); }
    UpdateHolds(SessionAt(ticks, n), ticks[n]);
  }

  // In any other frame outside raw mode it moves exactly by the pulse of the stick, or of the D-pad in its place, from
  // the hold the samples of this mode have left.
  lemma {:induction false} OtherwiseThePulseMoves(ticks: seq<Tick>, n: nat)
    requires n < |ticks| && ticks[n].mode != Raw
    requires forall id | Dpad(id) && id in ticks[n].sample.buttons :: n > 0 && !Pressed(ticks, n, id)
    ensures var t := ticks[n];
            var pulse := NavUpdate(HoldBefore(ticks, n), NavX(t.sample, t.mode), NavY(t.sample, t.mode), t.now).0;
            FrameAt(ticks, n).navigation == if pulse.Some? then Go(pulse.value) else NoAction
  {
    var s, t := SessionAt(ticks, n), ticks[n];
    SampleIsRemembered(ticks, n);
    HoldIsRemembered(ticks, n);
    forall e | e in FrameAt(ticks, n).edges ensures !(e.down && IsDpad(e.id)) {
      FrameReportsTheChanges(ticks, n, e);
      if IsDpad(e.id) { assert Dpad(e.id); }
    }
    NoDpadHeld(ticks, n);
    hide SessionAt, Edges, NavX, NavY, NavUpdate, AxesChanged, Scroll, ScrollDelta;
  }

  lemma {:induction false} NoDpadHeld(ticks: seq<Tick>, n: nat)
    requires n < |ticks|
    requires forall id | Dpad(id) && id in ticks[n].sample.buttons :: n > 0 && !Pressed(ticks, n, id)
    ensures n == 0 ==> !DpadHeld(ticks[n].sample.buttons)
  {
    if n == 0 { assert Dpad(0x0001) && Dpad(0x0002) && Dpad(0x0004) && Dpad(0x0008); }
  }

  // No time outside a mode scrolls in it: the frame that enters a mode turns no wheel and keeps no remainder.
  lemma {:induction false} EnteringScrollsNothing(ticks: seq<Tick>, n: nat)
    requires n < |ticks| && Enters(ticks, n)
    ensures FrameAt(ticks, n).wheelDelta == 0 && SessionAt(ticks, n + 1).accumulator == 0.0
  {
    SampleIsRemembered(ticks, n);
    EnteredScrolls(SessionAt(ticks, n), ticks[n]);
    hide Update;
  }

  lemma EnteredScrolls(s: Session, t: Tick)
    requires (!s.active && s.accumulator == 0.0) || (s.active && s.mode != t.mode)
    ensures var (frame, u) := Update(s, t.sample, t.mode, t.now); frame.wheelDelta == 0 && u.accumulator == 0.0
  {
    hide Edges, DpadPressed, NavX, NavY, NavUpdate, AxesChanged;
    assert Share(t.sample.axes.ry, 0.0) == 0.0;
  }

  // With the stick out of the way a single D-pad button steers its own way, and nothing held steers nowhere.
  lemma DpadSteers(sample: Sample, id: nat)
    requires Dpad(id) && id in sample.buttons && forall other | Dpad(other) && other != id :: other !in sample.buttons
    ensures Engaged(NavX(sample, Buttons), NavY(sample, Buttons)).Some?
    ensures Asks(id) == Go(Engaged(NavX(sample, Buttons), NavY(sample, Buttons)).value)
  {
    assert Dpad(0x0001) && Dpad(0x0002) && Dpad(0x0004) && Dpad(0x0008);
  }

  lemma NothingHeldSteersNowhere(n: Nav, sample: Sample, now: real)
    requires forall id | Dpad(id) :: id !in sample.buttons
    ensures NavUpdate(n, NavX(sample, Buttons), NavY(sample, Buttons), now) == (None, if n.direction.Some? then Released else n)
    ensures NavX(sample, Default) == sample.axes.lx && NavY(sample, Default) == sample.axes.ly
  {
    assert Dpad(0x0001) && Dpad(0x0002) && Dpad(0x0004) && Dpad(0x0008);
  }
}
