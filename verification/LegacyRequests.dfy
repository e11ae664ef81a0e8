// What becomes of a page's request to the scripts, over every run: its fate is read off the calls alone, and the pump
// sends the bridge exactly the settlements the fates give.
module LegacyRequests {
  import opened Wrappers
  import opened Text
  import opened LegacyStateModel

  datatype Action =
    | Ask(key: string, bridgeToken: nat, view: string, deadline: int)     // a listener got the request under this key
    | Answer(token: string, value: string, code: string, rejected: bool, valid: bool, at: int)
    | NewSession
    | CloseOf(closing: string)
    | PumpAt(now: int, pending: set<nat>, views: seq<string>, greeted: set<string>)
    | Suspend(suspend: bool)

  // An ask never replaces a request that is still held.
  function Next(s: Adapter, a: Action): Adapter {
    match a
    case Ask(key, token, view, deadline) =>
      if key in s.requests then s else s.(requests := s.requests[key := Request(token, view, deadline, false, false, "", "")])
    case Answer(token, value, code, rejected, valid, at) => Reply(s, token, value, code, rejected, valid, at)
    case NewSession => ResetSession(s)
    case CloseOf(view) => CloseView(s, view)
    case PumpAt(now, pending, views, greeted) => Pump(s, views, greeted, now, pending)
    case Suspend(suspend) => s.(suspended := suspend)
  }

  function Run(actions: seq<Action>): Adapter {
    if actions == [] then Initial else Next(Run(actions[..|actions| - 1]), actions[|actions| - 1])
  }

  // ---- fates -------------------------------------------------------------------------------------------------

  datatype Result = Unanswered | Value(value: string) | Rejection(code: string)

  // A held request, and what was answered.
  datatype Fate = Fate(bridgeToken: nat, view: string, deadline: int, result: Result)

  predicate SuspendedAsked(actions: seq<Action>) {
    if actions == [] then false
    else if actions[|actions| - 1].Suspend? then actions[|actions| - 1].suspend
    else SuspendedAsked(actions[..|actions| - 1])
  }

  // The bridge gave the request up, it is answered and may be told, or its time is over.
  predicate Leaves(f: Fate, suspended: bool, now: int, pending: set<nat>) {
    f.bridgeToken !in pending || (f.result != Unanswered && !suspended) || now >= f.deadline
  }

  // The first valid answer in time, while scripts run, counts; a new session refuses whatever is held.
  function FateNext(f: Option<Fate>, suspended: bool, a: Action, key: string): Option<Fate> {
    match a
    case Ask(k, token, view, deadline) => if k == key && f.None? then Some(Fate(token, view, deadline, Unanswered)) else f
    case Answer(token, value, code, rejected, valid, at) =>
      if Lower(token) == key && f.Some? && f.value.result == Unanswered && valid && !suspended && at < f.value.deadline
      then Some(f.value.(result := if !rejected then Value(value) else Rejection(if code == "" then "papyrus-rejected" else code)))
      else f
    case NewSession => if f.None? then None else Some(f.value.(result := Rejection("game-load")))
    case CloseOf(view) => if f.Some? && f.value.view == view then None else f
    case PumpAt(now, pending, _, _) => if f.Some? && Leaves(f.value, suspended, now, pending) then None else f
    case Suspend(_) => f
  }

  function FateAsked(actions: seq<Action>, key: string): Option<Fate> {
    if actions == [] then None else
    var before := actions[..|actions| - 1];
    FateNext(FateAsked(before, key), SuspendedAsked(before), actions[|actions| - 1], key)
  }

  // What the pump owes the bridge for a request.
  function Owed(f: Fate, suspended: bool, now: int, pending: set<nat>): Option<Settlement> {
    if f.bridgeToken !in pending then None
    else if f.result.Value? && !suspended then Some(RespondTo(f.bridgeToken, f.result.value))
    else if f.result.Rejection? && !suspended then Some(RejectTo(f.bridgeToken, f.result.code))
    else if now >= f.deadline then Some(RejectTo(f.bridgeToken, "papyrus-timeout"))
    else None
  }

  // ---- the adapter keeps them ------------------------------------------------------------------------------

  function FateOf(r: Request): Fate {
    Fate(r.bridgeToken, r.view, r.deadline, if !r.answered then Unanswered else if r.rejected then Rejection(r.code) else Value(r.value))
  }

  function Held(s: Adapter, key: string): Option<Fate> {
    if key in s.requests then Some(FateOf(s.requests[key])) else None
  }

  lemma PumpsRequests(s: Adapter, views: seq<string>, greeted: set<string>, now: int, pending: set<nat>)
    ensures Pump(s, views, greeted, now, pending).requests == AfterSettling(s, now, pending).requests
    ensures Pump(s, views, greeted, now, pending).suspended == s.suspended
  {
    hide Targets, Withdrawn, Delivered, Waits;
  }

  lemma StepKeepsFates(s: Adapter, a: Action, key: string)
    ensures Held(Next(s, a), key) == FateNext(Held(s, key), s.suspended, a, key)
    ensures Next(s, a).suspended == if a.Suspend? then a.suspend else s.suspended
  {
    hide Lower, Pump;
    if a.PumpAt? { PumpsRequests(s, a.views, a.greeted, a.now, a.pending); }
  }

  // After any run the adapter holds exactly the requests whose fate is open or still to be told, each with its fate.
  lemma {:induction false} RequestsMeetTheirFates(actions: seq<Action>, key: string)
    ensures Held(Run(actions), key) == FateAsked(actions, key) && Run(actions).suspended == SuspendedAsked(actions)
    decreases |actions|
  {
    hide Next, FateNext, Held;
    if actions != [] {
      var before := actions[..|actions| - 1];
      RequestsMeetTheirFates(before, key);
      StepKeepsFates(Run(before), actions[|actions| - 1], key);
    } else {
      NothingHeld(key);
    }
  }

  lemma NothingHeld(key: string)
    ensures Held(Initial, key) == None && !Initial.suspended
  {}

  // And what a pump then sends the bridge is exactly what it owes for them: the first answer, the cancellation of a
  // session change, or a timeout, to requests the bridge still waits for.
  lemma PumpSettlesExactlyWhatIsOwed(actions: seq<Action>, now: int, pending: set<nat>, x: Settlement)
    ensures var s := Run(actions);
            x in Settlements(s.requests, s.requests.Keys, s.suspended, now, pending) <==>
            exists key :: OwedUnder(actions, key, now, pending) == Some(x)
  {
    hide Run, FateAsked;
    var s := Run(actions);
    if x in Settlements(s.requests, s.requests.Keys, s.suspended, now, pending) {
      var k :| k in s.requests && s.requests[k].bridgeToken in pending && Outcome(s.requests[k], s.suspended, now) == Some(x);
      RequestsMeetTheirFates(actions, k);
      assert OwedUnder(actions, k, now, pending) == Some(x);
    }
    if key :| OwedUnder(actions, key, now, pending) == Some(x) {
      RequestsMeetTheirFates(actions, key);
      assert key in s.requests && Outcome(s.requests[key], s.suspended, now) == Some(x);
    }
  }

  function OwedUnder(actions: seq<Action>, key: string, now: int, pending: set<nat>): Option<Settlement> {
    var f := FateAsked(actions, key);
    if f.None? then None else Owed(f.value, SuspendedAsked(actions), now, pending)
  }
}
