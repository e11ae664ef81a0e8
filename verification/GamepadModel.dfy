// Gamepad navigation and scrolling (src/Input/GamepadNavigation.h, src/Input/GamepadSession.cpp) on values.
// Floats and doubles are reals; a button word is the set of its bits.
module GamepadModel {
  import opened Wrappers

  // ---- stick navigation ----------------------------------------------------------------------------------

  const ENGAGE: real := 0.55
  const RELEASE: real := 0.35
  const INITIAL_DELAY: real := 0.55
  const REPEAT_INTERVAL: real := 0.13

  datatype Direction = Up | Down | Left | Right

  datatype Nav = Nav(direction: Option<Direction>, nextRepeat: real)

  const Released := Nav(None, 0.0)

  // The stick's deflection towards a direction.
  function Directed(d: Direction, lx: real, ly: real): real {
    match d
    case Up => ly
    case Down => -ly
    case Left => -lx
    case Right => lx
  }

  function Abs(x: real): real {
    if x < 0.0 then -x else x
  }

  predicate Holds(n: Nav, lx: real, ly: real) {
    n.direction.Some? && Directed(n.direction.value, lx, ly) > RELEASE
  }

  // One axis a frame; vertical wins ties.
  function Engaged(lx: real, ly: real): Option<Direction> {
    if Abs(lx) < ENGAGE && Abs(ly) < ENGAGE then None
    else if Abs(ly) >= Abs(lx) then Some(if ly >= 0.0 then Up else Down)
    else Some(if lx < 0.0 then Left else Right)
  }

  // The pulse, if any, and the new state.
  function NavUpdate(n: Nav, lx: real, ly: real, now: real): (Option<Direction>, Nav) {
    if Holds(n, lx, ly) then
      if now >= n.nextRepeat then (n.direction, n.(nextRepeat := now + REPEAT_INTERVAL)) else (None, n)
    else if Engaged(lx, ly).None? then (None, if n.direction.Some? then Released else n)
    else (Engaged(lx, ly), Nav(Engaged(lx, ly), now + INITIAL_DELAY))
  }

  // ---- the session ------------------------------------------------------------------------------------------

  const DPAD_UP: nat := 0x0001
  const DPAD_DOWN: nat := 0x0002
  const DPAD_LEFT: nat := 0x0004
  const DPAD_RIGHT: nat := 0x0008
  const BUTTON_A: nat := 0x1000
  const BUTTON_B: nat := 0x2000

  const BUTTON_MASKS: seq<nat> := [
    DPAD_UP, DPAD_DOWN, DPAD_LEFT, DPAD_RIGHT, 0x0010, 0x0020, 0x0040, 0x0080, 0x0100, 0x0200, BUTTON_A, BUTTON_B, 0x4000, 0x8000]

  const MAX_SCROLL_DELTA: real := 0.1
  const AXES_EPSILON: real := 0.04
  const SCROLL_DEADZONE: real := 0.25
  const NOTCHES_PER_SECOND: real := 8.0
  const WHEEL_NOTCH: int := 120

  datatype Mode = Default | Buttons | Raw

  datatype Action = NoAction | Go(direction: Direction) | Activate | Back

  datatype Axes = Axes(lx: real, ly: real, rx: real, ry: real)

  datatype ButtonEdge = ButtonEdge(id: nat, down: bool, action: Action)

  datatype Sample = Sample(buttons: set<nat>, axes: Axes)

  datatype Frame = Frame(edges: seq<ButtonEdge>, axes: Axes, axesChanged: bool, navigation: Action, wheelDelta: int)

  datatype Session = Session(
    active: bool, mode: Mode, buttons: set<nat>, nav: Nav, accumulator: real, lastSampleTime: real, published: Axes)

  const Ended := Session(false, Default, {}, Released, 0.0, 0.0, Axes(0.0, 0.0, 0.0, 0.0))

  function ButtonAction(button: nat): Action {
    if button == DPAD_UP then Go(Up)
    else if button == DPAD_DOWN then Go(Down)
    else if button == DPAD_LEFT then Go(Left)
    else if button == DPAD_RIGHT then Go(Right)
    else if button == BUTTON_A then Activate
    else if button == BUTTON_B then Back
    else NoAction
  }

  predicate IsDpad(button: nat) {
    button == DPAD_UP || button == DPAD_DOWN || button == DPAD_LEFT || button == DPAD_RIGHT
  }

  predicate Changed(before: set<nat>, after: set<nat>, mask: nat) {
    (mask in before) != (mask in after)
  }

  function Edge(after: set<nat>, mode: Mode, mask: nat): ButtonEdge {
    ButtonEdge(mask, mask in after, if mode != Raw && mask in after then ButtonAction(mask) else NoAction)
  }

  // One edge for each of these buttons that changed, in their order.
  function Edges(before: set<nat>, after: set<nat>, mode: Mode, masks: seq<nat>): seq<ButtonEdge>
    decreases |masks|
  {
    if masks == [] then [] else
    var last := masks[|masks| - 1];
    Edges(before, after, mode, masks[..|masks| - 1]) + if Changed(before, after, last) then [Edge(after, mode, last)] else []
  }

  predicate DpadPressed(edges: seq<ButtonEdge>) {
    exists e | e in edges :: e.down && IsDpad(e.id)
  }

  predicate DpadHeld(buttons: set<nat>) {
    DPAD_UP in buttons || DPAD_DOWN in buttons || DPAD_LEFT in buttons || DPAD_RIGHT in buttons
  }

  // The D-pad overrides the stick on each axis where exactly one of its buttons is held.
  function NavX(s: Sample, mode: Mode): real {
    if (DPAD_LEFT in s.buttons) != (DPAD_RIGHT in s.buttons) then (if DPAD_RIGHT in s.buttons then 1.0 else -1.0)
    else if mode == Default then s.axes.lx else 0.0
  }

  function NavY(s: Sample, mode: Mode): real {
    if (DPAD_UP in s.buttons) != (DPAD_DOWN in s.buttons) then (if DPAD_UP in s.buttons then 1.0 else -1.0)
    else if mode == Default then s.axes.ly else 0.0
  }

  predicate AxesChanged(a: Axes, published: Axes) {
    || Abs(a.lx - published.lx) > AXES_EPSILON || Abs(a.ly - published.ly) > AXES_EPSILON
    || Abs(a.rx - published.rx) > AXES_EPSILON || Abs(a.ry - published.ry) > AXES_EPSILON
  }

  function Clamp(x: real, low: real, high: real): real {
    if x < low then low else if x > high then high else x
  }

  function ScrollDelta(s: Session, mode: Mode, now: real): real {
    if !s.active || s.mode != mode then 0.0 else Clamp(now - s.lastSampleTime, 0.0, MAX_SCROLL_DELTA)
  }

  // static_cast<int>: towards zero.
  function Truncate(x: real): int {
    if x >= 0.0 then x.Floor else -((-x).Floor)
  }

  predicate Scrolls(sample: Sample, mode: Mode) {
    mode == Default && Abs(sample.axes.ry) > SCROLL_DEADZONE
  }

  // The exact scroll of one sample, in notches.
  function Share(ry: real, delta: real): real {
    ry * NOTCHES_PER_SECOND * delta
  }

  // The accumulator after adding this frame's share, and the whole notches taken from it.
  function Scroll(accumulator: real, sample: Sample, mode: Mode, delta: real): (int, real) {
    if !Scrolls(sample, mode) then (0, 0.0) else
    var sum := accumulator + Share(sample.axes.ry, delta);
    (Truncate(sum), sum - Truncate(sum) as real)
  }

  // Joining the session, or changing its mode, drops what the old mode had accumulated.
  function Entered(s: Session, sample: Sample, mode: Mode): Session {
    if !s.active then s.(active := true, mode := mode, buttons := sample.buttons)
    else if s.mode != mode then s.(mode := mode, nav := Released, accumulator := 0.0, buttons := sample.buttons)
    else s.(buttons := sample.buttons)
  }

  function Update(s: Session, sample: Sample, mode: Mode, now: real): (Frame, Session) {
    var delta := ScrollDelta(s, mode, now);
    var edges := if s.active then Edges(s.buttons, sample.buttons, mode, BUTTON_MASKS) else [];
    var changed := AxesChanged(sample.axes, s.published);
    var t := Entered(s, sample, mode).(lastSampleTime := now, published := if changed then sample.axes else s.published);
    if mode == Raw then (Frame(edges, sample.axes, changed, NoAction, 0), t) else
    var (pulse, nav) := NavUpdate(t.nav, NavX(sample, mode), NavY(sample, mode), now);
    var primed := DpadPressed(edges) || (!s.active && DpadHeld(sample.buttons));
    var (notches, accumulator) := Scroll(t.accumulator, sample, mode, delta);
    (Frame(edges, sample.axes, changed, if pulse.Some? && !primed then Go(pulse.value) else NoAction, notches * WHEEL_NOTCH),
     t.(nav := nav, accumulator := accumulator))
  }
}
