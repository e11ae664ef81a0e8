// The navigation latch and the gamepad session as the source writes them, fields changed in place.
module Gamepads {
  import opened Wrappers
  import opened GamepadModel

  class GamepadNavigation {
    var direction: Option<Direction>
    var nextRepeat: real

    function State(): Nav
      reads this
    {
      Nav(direction, nextRepeat)
    }

    constructor ()
      ensures State() == Released
    {
      direction, nextRepeat := None, 0.0;
    }

    method Update(lx: real, ly: real, now: real) returns (pulse: Option<Direction>)
      modifies this
      ensures (pulse, State()) == NavUpdate(old(State()), lx, ly, now)
    {
      if direction.Some? {
        if Directed(direction.value, lx, ly) > RELEASE {
          if now >= nextRepeat {
            nextRepeat := now + REPEAT_INTERVAL;
            return direction;
          }
          return None;
        }
        direction, nextRepeat := None, 0.0;
      }
      var absX := if lx < 0.0 then -lx else lx;
      var absY := if ly < 0.0 then -ly else ly;
      if absX < ENGAGE && absY < ENGAGE { return None; }
      if absY >= absX {
        direction := Some(if ly >= 0.0 then Up else Down);
      } else {
        direction := Some(if lx < 0.0 then Left else Right);
      }
      nextRepeat := now + INITIAL_DELAY;
      return direction;
    }

    method Reset()
      modifies this
      ensures State() == Released
    {
      direction, nextRepeat := None, 0.0;
    }
  }

  class GamepadSession {
    var active: bool
    var mode: Mode
    var buttons: set<nat>
    const navigation: GamepadNavigation
    var accumulator: real
    var lastSampleTime: real
    var published: Axes

    function State(): Session
      reads this, navigation
    {
      Session(active, mode, buttons, navigation.State(), accumulator, lastSampleTime, published)
    }

    constructor ()
      ensures State() == Ended && fresh(navigation)
    {
      active, mode, buttons, accumulator, lastSampleTime := false, Default, {}, 0.0, 0.0;
      published := Axes(0.0, 0.0, 0.0, 0.0);
      navigation := new GamepadNavigation();
    }

    // The loop over the masks: an edge a changed button, and whether a D-pad button went down.
    method ButtonEdges(after: set<nat>, newMode: Mode) returns (edges: seq<ButtonEdge>, dpadPressed: bool)
      ensures edges == Edges(buttons, after, newMode, BUTTON_MASKS) && dpadPressed == DpadPressed(edges)
    {
      edges, dpadPressed := [], false;
      var i := 0;
      assert BUTTON_MASKS[..0] == [];
      while i < |BUTTON_MASKS|
        invariant i <= |BUTTON_MASKS|
        invariant edges == Edges(buttons, after, newMode, BUTTON_MASKS[..i]) && dpadPressed == DpadPressed(edges)
      {
        var mask := BUTTON_MASKS[i];
        assert BUTTON_MASKS[..i + 1][..i] == BUTTON_MASKS[..i];
        if (mask in buttons) != (mask in after) {
          var down := mask in after;
          ghost var before := edges;
          edges := edges + [ButtonEdge(mask, down, if newMode != Raw && down then ButtonAction(mask) else NoAction)];
          AddEdge(before, edges[|edges| - 1]);
          dpadPressed := dpadPressed || (down && IsDpad(mask));
        }
        i := i + 1;
      }
      assert BUTTON_MASKS[..i] == BUTTON_MASKS;
    }

    method Update(sample: Sample, newMode: Mode, now: real) returns (frame: Frame)
      modifies this, navigation
      ensures (frame, State()) == GamepadModel.Update(old(State()), sample, newMode, now)
    {
      hide Edges, DpadPressed, NavX, NavY, NavUpdate, AxesChanged, Scroll, BUTTON_MASKS;
      var started := !active;
      var scrollDelta := if started || mode != newMode then 0.0 else Clamp(now - lastSampleTime, 0.0, MAX_SCROLL_DELTA);
      lastSampleTime := now;
      var dpadPressed, edges := false, [];
      NoPress();
      if started {
        active, mode, buttons := true, newMode, sample.buttons;
      } else {
        if mode != newMode {
          mode := newMode;
          navigation.Reset();
          accumulator := 0.0;
        }
        edges, dpadPressed := ButtonEdges(sample.buttons, newMode);
        buttons := sample.buttons;
      }
      var axesChanged := AxesChanged(sample.axes, published);
      if axesChanged { published := sample.axes; }
      if newMode == Raw { return Frame(edges, sample.axes, axesChanged, NoAction, 0); }
      var pulse := navigation.Update(NavX(sample, newMode), NavY(sample, newMode), now);
      var action := NoAction;
      if !dpadPressed && !(started && DpadHeld(sample.buttons)) && pulse.Some? { action := Go(pulse.value); }
      var wheelDelta := Scrolled(sample, newMode, scrollDelta);
      return Frame(edges, sample.axes, axesChanged, action, wheelDelta);
    }

    // The scrolling part of Update.
    method Scrolled(sample: Sample, newMode: Mode, scrollDelta: real) returns (wheelDelta: int)
      modifies this`accumulator
      ensures wheelDelta == Scroll(old(accumulator), sample, newMode, scrollDelta).0 * WHEEL_NOTCH
      ensures accumulator == Scroll(old(accumulator), sample, newMode, scrollDelta).1
    {
      wheelDelta := 0;
      if newMode == Default && Abs(sample.axes.ry) > SCROLL_DEADZONE {
        accumulator := accumulator + Share(sample.axes.ry, scrollDelta);
        var notches := Truncate(accumulator);
        if notches != 0 {
          wheelDelta := notches * WHEEL_NOTCH;
          accumulator := accumulator - notches as real;
        }
      } else {
        accumulator := 0.0;
      }
    }

    method End() returns (was: bool)
      modifies this, navigation
      ensures was == old(active) && State() == if old(active) then Ended else old(State())
    {
      if !active { return false; }
      active, mode, buttons := false, Default, {};
      navigation.Reset();
      accumulator, lastSampleTime, published := 0.0, 0.0, Axes(0.0, 0.0, 0.0, 0.0);
      return true;
    }
  }

  lemma NoPress()
    ensures !DpadPressed([])
  {}

  lemma AddEdge(edges: seq<ButtonEdge>, e: ButtonEdge)
    ensures DpadPressed(edges + [e]) <==> DpadPressed(edges) || (e.down && IsDpad(e.id))
  {
    assert e in edges + [e];
    if DpadPressed(edges) {
      var d :| d in edges && d.down && IsDpad(d.id);
      assert d in edges + [e];
    }
  }
}
