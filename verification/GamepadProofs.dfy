// Scroll totals and hold repeats over whole runs.
module GamepadProofs {
  import opened Wrappers
  import opened GamepadModel

  // ---- scrolling ------------------------------------------------------------------------------------------

  datatype Tick = Tick(sample: Sample, now: real)

  // The session after a run of updates in one mode.
  function After(s: Session, ticks: seq<Tick>, mode: Mode): Session
    decreases |ticks|
  {
    if ticks == [] then s else
    Update(After(s, ticks[..|ticks| - 1], mode), ticks[|ticks| - 1].sample, mode, ticks[|ticks| - 1].now).1
  }

  function WheelTotal(s: Session, ticks: seq<Tick>, mode: Mode): int
    decreases |ticks|
  {
    if ticks == [] then 0 else
    var front, last := ticks[..|ticks| - 1], ticks[|ticks| - 1];
    WheelTotal(s, front, mode) + Update(After(s, front, mode), last.sample, mode, last.now).0.wheelDelta
  }

  // The exact scroll in notches: 8 a second times the deflection, no sample counting for more than 0.1 s.
  function ExactScroll(s: Session, ticks: seq<Tick>, mode: Mode): real
    decreases |ticks|
  {
    if ticks == [] then 0.0 else
    var front, last := ticks[..|ticks| - 1], ticks[|ticks| - 1];
    ExactScroll(s, front, mode) + Share(last.sample.axes.ry, ScrollDelta(After(s, front, mode), mode, last.now))
  }

  // An uninterrupted segment: the stick stays beyond its dead zone.
  predicate Uninterrupted(ticks: seq<Tick>) {
    forall t | t in ticks :: Scrolls(t.sample, Default)
  }

  lemma TruncateLeavesLessThanOne(x: real)
    ensures Abs(x - Truncate(x) as real) < 1.0
  {}

  // Joining or changing mode starts from an empty accumulator.
  predicate FreshScroll(s: Session) {
    s.accumulator == 0.0
  }

  lemma UpdateScrolls(s: Session, sample: Sample, now: real) returns (notches: int)
    requires Scrolls(sample, Default) && ((s.active && s.mode == Default) || s.accumulator == 0.0)
    ensures var (frame, t) := Update(s, sample, Default, now);
            && t.active && t.mode == Default && Abs(t.accumulator) < 1.0 && frame.wheelDelta == notches * WHEEL_NOTCH
            && notches as real + t.accumulator == s.accumulator + Share(sample.axes.ry, ScrollDelta(s, Default, now))
  {
    hide Edges, DpadPressed, NavX, NavY, NavUpdate, AxesChanged, Scroll;
    var delta := ScrollDelta(s, Default, now);
    ScrollSum(s.accumulator, sample, delta);
    notches := Scroll(s.accumulator, sample, Default, delta).0;
  }

  lemma ScrollSum(accumulator: real, sample: Sample, delta: real)
    requires Scrolls(sample, Default)
    ensures var (notches, rest) := Scroll(accumulator, sample, Default, delta);
            && Abs(rest) < 1.0 && notches as real + rest == accumulator + Share(sample.axes.ry, delta)
  {
    TruncateLeavesLessThanOne(accumulator + Share(sample.axes.ry, delta));
  }

  lemma {:induction false} SegmentAccount(s: Session, ticks: seq<Tick>) returns (notches: int)
    requires FreshScroll(s) && Uninterrupted(ticks)
    ensures WheelTotal(s, ticks, Default) == notches * WHEEL_NOTCH
    ensures notches as real + After(s, ticks, Default).accumulator == ExactScroll(s, ticks, Default)
    ensures Abs(After(s, ticks, Default).accumulator) < 1.0
    ensures ticks != [] ==> After(s, ticks, Default).active && After(s, ticks, Default).mode == Default
    decreases |ticks|
  {
    if ticks == [] {
      notches := 0;
    } else {
      hide Update, ScrollDelta, Scrolls, Share;
      var front, last := ticks[..|ticks| - 1], ticks[|ticks| - 1];
      assert last in ticks && forall t | t in front :: t in ticks;
      var before := SegmentAccount(s, front);
      var more := UpdateScrolls(After(s, front, Default), last.sample, last.now);
      notches := before + more;
      Distribute(before, more);
    }
  }

  lemma Distribute(a: int, b: int)
    ensures (a + b) * WHEEL_NOTCH == a * WHEEL_NOTCH + b * WHEEL_NOTCH && (a + b) as real == a as real + b as real
  {}

  lemma WheelNotches(n: int)
    ensures n * WHEEL_NOTCH % WHEEL_NOTCH == 0 && n * WHEEL_NOTCH / WHEEL_NOTCH == n
  {}

  // Over an uninterrupted segment the wheel total is whole notches and differs from the exact scroll by less
  // than one notch.
  lemma ScrollWithinOneNotch(s: Session, ticks: seq<Tick>)
    requires FreshScroll(s) && Uninterrupted(ticks)
    ensures WheelTotal(s, ticks, Default) % WHEEL_NOTCH == 0
    ensures Abs((WheelTotal(s, ticks, Default) / WHEEL_NOTCH) as real - ExactScroll(s, ticks, Default)) < 1.0
  {
    hide WheelTotal, ExactScroll, After;
    var notches := SegmentAccount(s, ticks);
    WheelNotches(notches);
  }

  // A stick held at one deflection and sampled at least every 0.1 s, from a session in scrolling mode.
  predicate HeldStill(s: Session, ticks: seq<Tick>, ry: real) {
    s.active && s.mode == Default && forall i | 0 <= i < |ticks| :: SoonAfter(s, ticks, i, ry)
  }

  predicate SoonAfter(s: Session, ticks: seq<Tick>, i: nat, ry: real)
    requires i < |ticks|
  {
    var before := if i == 0 then s.lastSampleTime else ticks[i - 1].now;
    ticks[i].sample.axes.ry == ry && 0.0 <= ticks[i].now - before <= MAX_SCROLL_DELTA
  }

  function LastTime(s: Session, ticks: seq<Tick>): real {
    if ticks == [] then s.lastSampleTime else ticks[|ticks| - 1].now
  }

  // The exact scroll is then 8 notches a second times the deflection times the time elapsed, whatever the rate.
  lemma {:induction false} ExactScrollOfHeldStick(s: Session, ticks: seq<Tick>, ry: real)
    requires HeldStill(s, ticks, ry)
    ensures ExactScroll(s, ticks, Default) == Share(ry, LastTime(s, ticks) - s.lastSampleTime)
    ensures After(s, ticks, Default).active && After(s, ticks, Default).mode == Default
    ensures After(s, ticks, Default).lastSampleTime == LastTime(s, ticks)
    decreases |ticks|
  {
    if ticks == [] {
      NoTime(ry, s.lastSampleTime);
    } else {
      hide Update, Share;
      var front, last := ticks[..|ticks| - 1], ticks[|ticks| - 1];
      HeldFront(s, ticks, ry);
      ExactScrollOfHeldStick(s, front, ry);
      UpdateTime(After(s, front, Default), last.sample, last.now);
      SharesAdd(ry, LastTime(s, front) - s.lastSampleTime, last.now - LastTime(s, front));
    }
  }

  lemma HeldFront(s: Session, ticks: seq<Tick>, ry: real)
    requires ticks != [] && HeldStill(s, ticks, ry)
    ensures HeldStill(s, ticks[..|ticks| - 1], ry)
    ensures var front := ticks[..|ticks| - 1];
            ticks[|ticks| - 1].sample.axes.ry == ry && 0.0 <= ticks[|ticks| - 1].now - LastTime(s, front) <= MAX_SCROLL_DELTA
  {
    var front := ticks[..|ticks| - 1];
    forall i: nat | i < |front| ensures SoonAfter(s, front, i, ry) {
      assert SoonAfter(s, ticks, i, ry);
      assert front[i] == ticks[i] && (i > 0 ==> front[i - 1] == ticks[i - 1]);
    }
    assert SoonAfter(s, ticks, |front|, ry);
    assert front != [] ==> front[|front| - 1] == ticks[|front| - 1];
  }

  lemma NoTime(ry: real, t: real)
    ensures Share(ry, t - t) == 0.0
  {}

  lemma SharesAdd(ry: real, a: real, b: real)
    ensures Share(ry, a) + Share(ry, b) == Share(ry, a + b)
  {
    var rate := ry * NOTCHES_PER_SECOND;
    assert rate * a + rate * b == rate * (a + b);
  }

  lemma UpdateTime(s: Session, sample: Sample, now: real)
    ensures var t := Update(s, sample, Default, now).1; t.active && t.mode == Default && t.lastSampleTime == now
  {
    hide Edges, DpadPressed, NavX, NavY, NavUpdate, AxesChanged, Scroll;
  }

  lemma HeldScrolls(s: Session, ticks: seq<Tick>, ry: real)
    requires HeldStill(s, ticks, ry) && Abs(ry) > SCROLL_DEADZONE
    ensures Uninterrupted(ticks)
  {
    forall t | t in ticks ensures Scrolls(t.sample, Default) {
      var i: nat :| i < |ticks| && ticks[i] == t;
      assert SoonAfter(s, ticks, i, ry);
    }
  }

  // So the update rate changes the wheel total of a held stick by at most one notch.
  lemma RateChangesAtMostOneNotch(s: Session, ticks: seq<Tick>, others: seq<Tick>, ry: real)
    requires FreshScroll(s) && Abs(ry) > SCROLL_DEADZONE
    requires HeldStill(s, ticks, ry) && HeldStill(s, others, ry) && LastTime(s, ticks) == LastTime(s, others)
    ensures -1 <= WheelTotal(s, ticks, Default) / WHEEL_NOTCH - WheelTotal(s, others, Default) / WHEEL_NOTCH <= 1
  {
    hide WheelTotal, ExactScroll, FreshScroll;
    HeldScrolls(s, ticks, ry);
    HeldScrolls(s, others, ry);
    ExactScrollOfHeldStick(s, ticks, ry);
    ExactScrollOfHeldStick(s, others, ry);
    ScrollWithinOneNotch(s, ticks);
    ScrollWithinOneNotch(s, others);
    Near(WheelTotal(s, ticks, Default) / WHEEL_NOTCH, WheelTotal(s, others, Default) / WHEEL_NOTCH, ExactScroll(s, ticks, Default));
  }

  lemma Near(a: int, b: int, x: real)
    requires Abs(a as real - x) < 1.0 && Abs(b as real - x) < 1.0
    ensures -1 <= a - b <= 1
  {
    assert (a - b) as real == a as real - b as real;
  }

  // Leaving the dead zone, leaving the mode or ending the session forgets the rest; so segments do not mix.
  lemma InterruptionEmptiesTheAccumulator(s: Session, sample: Sample, mode: Mode, now: real)
    requires s.active && ((mode != Raw && !Scrolls(sample, mode)) || (mode == Raw && s.mode != Raw))
    ensures FreshScroll(Update(s, sample, mode, now).1)
    ensures mode != Raw ==> Update(s, sample, mode, now).0.wheelDelta == 0
  {
    hide Edges, DpadPressed, NavX, NavY, NavUpdate, AxesChanged;
  }

  // ---- hold repeat -------------------------------------------------------------------------------------------

  datatype Stick = Stick(lx: real, ly: real, now: real)

  function NavAfter(n: Nav, run: seq<Stick>, i: nat): Nav
    requires i <= |run|
  {
    if i == 0 then n else NavUpdate(NavAfter(n, run, i - 1), run[i - 1].lx, run[i - 1].ly, run[i - 1].now).1
  }

  function PulseAt(n: Nav, run: seq<Stick>, i: nat): Option<Direction>
    requires i < |run|
  {
    NavUpdate(NavAfter(n, run, i), run[i].lx, run[i].ly, run[i].now).0
  }

  predicate Monotone(run: seq<Stick>) {
    forall i, j | 0 <= i <= j < |run| :: run[i].now <= run[j].now
  }

  // Samples `from` to `to` belong to one hold: the first engages, the rest keep the stick past the release
  // threshold in the engaged direction.
  predicate OneHold(n: Nav, run: seq<Stick>, from: nat, to: nat) {
    && from <= to < |run|
    && !Holds(NavAfter(n, run, from), run[from].lx, run[from].ly) && Engaged(run[from].lx, run[from].ly).Some?
    && forall i | from < i <= to :: Holds(NavAfter(n, run, i), run[i].lx, run[i].ly)
  }

  function Gap(from: nat, i: nat): real {
    if i == from then INITIAL_DELAY else REPEAT_INTERVAL
  }

  // The engaging sample pulses and latches its direction for the hold.
  lemma {:induction false} HoldKeepsDirection(n: Nav, run: seq<Stick>, from: nat, to: nat, i: nat)
    requires OneHold(n, run, from, to) && from < i <= to + 1
    ensures NavAfter(n, run, i).direction == Engaged(run[from].lx, run[from].ly)
    ensures PulseAt(n, run, from) == Engaged(run[from].lx, run[from].ly)
    decreases i
  {
    if i > from + 1 {
      HoldKeepsDirection(n, run, from, to, i - 1);
      assert Holds(NavAfter(n, run, i - 1), run[i - 1].lx, run[i - 1].ly);
    }
  }

  // After a pulse the next one is put off by the gap, until it comes.
  lemma {:induction false} RepeatIsPutOff(n: Nav, run: seq<Stick>, from: nat, to: nat, p: nat, i: nat)
    requires OneHold(n, run, from, to) && from <= p < i <= to + 1 && PulseAt(n, run, p).Some?
    requires forall k | p < k < i :: PulseAt(n, run, k).None?
    ensures NavAfter(n, run, i).nextRepeat == run[p].now + Gap(from, p)
    decreases i
  {
    if i == p + 1 {
      assert p > from ==> Holds(NavAfter(n, run, p), run[p].lx, run[p].ly);
    } else {
      RepeatIsPutOff(n, run, from, to, p, i - 1);
      assert Holds(NavAfter(n, run, i - 1), run[i - 1].lx, run[i - 1].ly) && PulseAt(n, run, i - 1).None?;
    }
  }

  // In one hold every pulse has the engaged direction.
  lemma PulsesShareOneDirection(n: Nav, run: seq<Stick>, from: nat, to: nat, i: nat)
    requires OneHold(n, run, from, to) && from <= i <= to
    ensures PulseAt(n, run, i).None? || PulseAt(n, run, i) == Engaged(run[from].lx, run[from].ly)
    ensures PulseAt(n, run, from).Some?
  {
    HoldKeepsDirection(n, run, from, to, from + 1);
    if i > from {
      HoldKeepsDirection(n, run, from, to, i);
      assert Holds(NavAfter(n, run, i), run[i].lx, run[i].ly);
    }
  }

  // The next pulse after one comes at the first sample at least 0.55 s after the engaging pulse, 0.13 s after
  // any other.
  lemma NextPulseComesExactlyAfterTheGap(n: Nav, run: seq<Stick>, from: nat, to: nat, p: nat, i: nat)
    requires OneHold(n, run, from, to) && from <= p < i <= to && PulseAt(n, run, p).Some?
    requires forall k | p < k < i :: PulseAt(n, run, k).None?
    ensures PulseAt(n, run, i).Some? <==> run[i].now >= run[p].now + Gap(from, p)
  {
    RepeatIsPutOff(n, run, from, to, p, i);
    HoldKeepsDirection(n, run, from, to, i);
    assert Holds(NavAfter(n, run, i), run[i].lx, run[i].ly);
  }

  // Any two pulses of a hold are at least that far apart.
  lemma {:induction false} PulsesAreSpaced(n: Nav, run: seq<Stick>, from: nat, to: nat, p: nat, q: nat)
    requires OneHold(n, run, from, to) && Monotone(run) && from <= p < q <= to
    requires PulseAt(n, run, p).Some? && PulseAt(n, run, q).Some?
    ensures run[q].now - run[p].now >= Gap(from, p)
    decreases q - p
  {
    if k :| p < k < q && PulseAt(n, run, k).Some? {
      PulsesAreSpaced(n, run, from, to, p, k);
    } else {
      NextPulseComesExactlyAfterTheGap(n, run, from, to, p, q);
    }
  }

  // ---- button edges -------------------------------------------------------------------------------------------

  // The edges are exactly the reported buttons that changed, each with its new state.
  lemma {:induction false} EdgesAreTheChanges(before: set<nat>, after: set<nat>, mode: Mode, masks: seq<nat>, id: nat, down: bool)
    ensures (exists e | e in Edges(before, after, mode, masks) :: e.id == id && e.down == down)
            <==> id in masks && Changed(before, after, id) && down == (id in after)
    decreases |masks|
  {
    if masks != [] {
      var front, last := masks[..|masks| - 1], masks[|masks| - 1];
      EdgesAreTheChanges(before, after, mode, front, id, down);
      assert id in masks <==> id in front || id == last;
      var edges := Edges(before, after, mode, front);
      if Changed(before, after, last) {
        assert Edge(after, mode, last) in edges + [Edge(after, mode, last)];
        assert forall e | e in edges :: e in edges + [Edge(after, mode, last)];
      }
    }
  }
}
