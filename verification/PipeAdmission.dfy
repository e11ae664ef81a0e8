// When a call on the pipe begins: read off the steps of the threads, without the pipe's own flags.
module PipeAdmission {
  import opened Wrappers
  import opened PipeModel
  import opened PipeProofs

  // ---- what the steps so far made of the pipe ------------------------------------------------------------------

  // What a thread that finishes a close leaves: the pipe open again or shut.
  predicate Reopens(s: Thread) {
    s.Detached? && s.reopenThen
  }

  // Shut until a close that was to reopen it finishes, and again from the next close on.
  predicate Shut(worlds: seq<World>, actions: seq<Action>, n: nat)
    requires |worlds| == |actions| + 1 && n <= |actions|
  {
    if n == 0 then true
    else match actions[n - 1]
      case LockClose(_) => true
      case FinishClose(t) => Shut(worlds, actions, n - 1) && !Reopens(At(worlds[n - 1], t))
      case _ => Shut(worlds, actions, n - 1)
  }

  // The handles published last and not taken by a close since: the pipe and its two events, in the order created.
  function PublishedLast(worlds: seq<World>, actions: seq<Action>, n: nat): Option<Handles>
    requires |worlds| == |actions| + 1 && n <= |actions|
  {
    if n == 0 then None
    else match actions[n - 1]
      case PublishIt(t, readEvent, writeEvent, _) =>
        if readEvent && writeEvent && !Shut(worlds, actions, n - 1) && At(worlds[n - 1], t).Made?
        then Some(Handles(At(worlds[n - 1], t).handle, worlds[n - 1].next, worlds[n - 1].next + 1))
        else PublishedLast(worlds, actions, n - 1)
      case TakeHandles(_) => None
      case _ => PublishedLast(worlds, actions, n - 1)
  }

  // A client connected to it: by opening it, or by an accept that ended well on this very pipe.
  predicate Connected(worlds: seq<World>, actions: seq<Action>, n: nat)
    requires |worlds| == |actions| + 1 && n <= |actions|
  {
    n > 0 &&
    var before := Connected(worlds, actions, n - 1);
    match actions[n - 1]
    case PublishIt(_, readEvent, writeEvent, connected) =>
      if readEvent && writeEvent && !Shut(worlds, actions, n - 1) then connected else before
    case IoDone(t, error) =>
      var s, handles := At(worlds[n - 1], t), PublishedLast(worlds, actions, n - 1);
      before || (!error && s.InIo? && s.ioKind == Accept && !Shut(worlds, actions, n - 1) && handles.Some? && handles.value.pipe == s.target)
    case TakeHandles(_) => false
    case _ => before
  }

  // ---- the pipe is so ----------------------------------------------------------------------------------------------

  lemma StepOfThePipe(w: World, a: Action)
    requires Enabled(w, a)
    ensures var p := Next(w, a).p;
            && p.closing == (a.LockClose? || (w.p.closing && !(a.FinishClose? && Reopens(At(w, a.t)))))
            && p.handles == (if a.PublishIt? && a.readEvent && a.writeEvent && !w.p.closing then Some(Handles(At(w, a.t).handle, w.next, w.next + 1))
                             else if a.TakeHandles? then None else w.p.handles)
            && p.connected == (if a.PublishIt? && a.readEvent && a.writeEvent && !w.p.closing then a.connected
                               else if a.TakeHandles? then false
                               else w.p.connected || (a.IoDone? && !a.error && At(w, a.t).ioKind == Accept && CanConnect(w.p, At(w, a.t).target)))
  {}

  lemma {:induction false} PipeIsSo(worlds: seq<World>, actions: seq<Action>, n: nat)
    requires Execution(worlds, actions) && n <= |actions|
    ensures var p := worlds[n].p;
            p.closing == Shut(worlds, actions, n) && p.handles == PublishedLast(worlds, actions, n) && p.connected == Connected(worlds, actions, n)
  {
    hide Next;
    if n > 0 {
      PipeIsSo(worlds, actions, n - 1);
      assert Leads(worlds[n - 1], actions[n - 1], worlds[n]);
      StepOfThePipe(worlds[n - 1], actions[n - 1]);
    }
  }

  // ---- who is in a call --------------------------------------------------------------------------------------------

  predicate Someone(w: World, kind: CallKind) {
    exists t :: t in w.threads && KindOf(w.threads[t]) == Some(kind)
  }

  // A flag is up only while a thread is in such a call.
  predicate FlagsOk(w: World) {
    && (w.p.opening ==> Someone(w, Open)) && (w.p.accepting ==> Someone(w, Accept)) && (w.p.readerActive ==> Someone(w, Read))
  }

  // The thread that takes the step, after it.
  function After(w: World, a: Action): Thread
    requires Enabled(w, a)
  {
    match a
    case Begin(t, kind) => if CanBegin(w.p, kind) then InCall(kind) else Free
    case Create(t, created) => if created then Made(w.next) else Failed(Open)
    case PublishIt(t, readEvent, writeEvent, _) => if readEvent && writeEvent && !w.p.closing then Settled(Open) else Failed(Open)
    case IssueIo(t) => if w.p.closing || w.p.handles.None? then Ended(At(w, t).kind) else InIo(At(w, t).kind, w.p.handles.value.pipe)
    case IoDone(t, error) =>
      if At(w, t).ioKind != Accept then (if error then Settled(At(w, t).ioKind) else InCall(At(w, t).ioKind))
      else if !error && CanConnect(w.p, At(w, t).target) then Settled(Accept) else Failed(Accept)
    case End(t) => if At(w, t).Failed? then WantsClose(false) else Free
    case AskClose(_, reopen) => WantsClose(reopen)
    case LockClose(t) => Waiting(At(w, t).reopen)
    case TakeHandles(t) => Detached(w.p.handles, At(w, t).reopenAfter)
    case FinishClose(_) => Free
  }

  lemma OnlyItMoves(w: World, a: Action)
    requires Enabled(w, a)
    ensures Next(w, a).threads == w.threads || Next(w, a).threads == w.threads[a.t := After(w, a)]
    ensures At(Next(w, a), a.t) == After(w, a)
  {
    hide CloseAll, EndCall, Detach, BeginCall, MarkClosing, SetConnected, CanBegin, CanConnect, PublishStep, Ended, KindOf;
    if a.PublishIt? { PublishMovesIt(w, a.t, a.readEvent, a.writeEvent, a.connected); }
  }

  lemma PublishMovesIt(w: World, t: nat, readEvent: bool, writeEvent: bool, connected: bool)
    requires At(w, t).Made?
    ensures PublishStep(w, t, readEvent, writeEvent, connected).threads ==
            w.threads[t := if readEvent && writeEvent && !w.p.closing then Settled(Open) else Failed(Open)]
  {}

  lemma KindAfter(w: World, a: Action)
    requires Enabled(w, a)
    ensures KindOf(After(w, a)) == KindOf(At(w, a.t)) || (a.End? && KindOf(After(w, a)).None?)
            || (a.Begin? && KindOf(After(w, a)) == Some(a.kind) && KindOf(At(w, a.t)).None?)
  {
    hide CanBegin, CanConnect;
  }

  lemma ThreadOfAStep(w: World, a: Action)
    requires Enabled(w, a)
    ensures var v := Next(w, a);
            && (v.threads == w.threads || (a.t in v.threads && v.threads == w.threads[a.t := v.threads[a.t]]))
            && (KindOf(At(v, a.t)) == KindOf(At(w, a.t)) || (a.End? && KindOf(At(v, a.t)).None?) || (a.Begin? && KindOf(At(v, a.t)) == Some(a.kind) && KindOf(At(w, a.t)).None?))
  {
    OnlyItMoves(w, a);
    KindAfter(w, a);
    hide Next, KindOf, After, Enabled;
  }

  lemma FlagsOfAStep(w: World, a: Action)
    requires Enabled(w, a)
    ensures var p, v := w.p, Next(w, a).p;
            && (v.opening ==> p.opening || (a.Begin? && a.kind == Open && KindOf(At(Next(w, a), a.t)) == Some(Open)))
            && (v.accepting ==> p.accepting || (a.Begin? && a.kind == Accept && KindOf(At(Next(w, a), a.t)) == Some(Accept)))
            && (v.readerActive ==> p.readerActive || (a.Begin? && a.kind == Read && KindOf(At(Next(w, a), a.t)) == Some(Read)))
            && (a.End? ==> var kind := KindOf(At(w, a.t));
                  kind.Some? && (kind == Some(Open) ==> !v.opening) && (kind == Some(Accept) ==> !v.accepting) && (kind == Some(Read) ==> !v.readerActive))
  {}

  lemma SomeoneStays(w: World, a: Action, kind: CallKind)
    requires Enabled(w, a) && Someone(w, kind) && !(a.End? && KindOf(At(w, a.t)) == Some(kind))
    ensures Someone(Next(w, a), kind)
  {
    ThreadOfAStep(w, a);
    hide Next, KindOf;
    var t :| t in w.threads && KindOf(w.threads[t]) == Some(kind);
    if t != a.t { assert t in Next(w, a).threads && Next(w, a).threads[t] == w.threads[t]; }
    KindOfFree();
    assert t in Next(w, a).threads && KindOf(Next(w, a).threads[t]) == Some(kind);
  }

  lemma KindOfFree()
    ensures KindOf(Free).None?
  {}

  lemma FlagsKeep(w: World, a: Action)
    requires Enabled(w, a) && FlagsOk(w)
    ensures FlagsOk(Next(w, a))
  {
    FlagsOfAStep(w, a);
    hide Next, KindOf, Someone;
    FlagKeeps(w, a, Open);
    FlagKeeps(w, a, Accept);
    FlagKeeps(w, a, Read);
  }

  function Flag(p: PipeState, kind: CallKind): bool {
    match kind
    case Open => p.opening
    case Accept => p.accepting
    case Read => p.readerActive
    case Write => false
  }

  lemma FlagKeeps(w: World, a: Action, kind: CallKind)
    requires Enabled(w, a) && (Flag(w.p, kind) ==> Someone(w, kind))
    ensures Flag(Next(w, a).p, kind) ==> Someone(Next(w, a), kind)
  {
    FlagsOfAStep(w, a);
    ThreadOfAStep(w, a);
    KindOfFree();
    hide Next, KindOf;
    if Flag(Next(w, a).p, kind) {
      if Flag(w.p, kind) {
        SomeoneStays(w, a, kind);
      } else {
        assert a.t in Next(w, a).threads && KindOf(Next(w, a).threads[a.t]) == Some(kind);
      }
    }
  }

  lemma {:induction false} FlagsHold(worlds: seq<World>, actions: seq<Action>, n: nat)
    requires Execution(worlds, actions) && n <= |actions|
    ensures FlagsOk(worlds[n])
  {
    hide Next, FlagsOk;
    if n == 0 {
      NoFlags();
    } else {
      FlagsHold(worlds, actions, n - 1);
      assert Leads(worlds[n - 1], actions[n - 1], worlds[n]);
      FlagsKeep(worlds[n - 1], actions[n - 1]);
    }
  }

  lemma NoFlags()
    ensures FlagsOk(Boot)
  {}

  // A call begins if and only if the pipe is not shut and: to open it, nothing is published and no one else opens; to
  // accept, it is published without a client and no one else accepts; to read, it has a client and no one else reads;
  // to write, it has a client. A call that does not begin changes nothing.
  lemma CallBeginsExactlyWhen(worlds: seq<World>, actions: seq<Action>, n: nat, t: nat, kind: CallKind)
    requires Execution(worlds, actions) && n < |actions| && actions[n] == Begin(t, kind)
    ensures var w, v := worlds[n], worlds[n + 1];
            var may := match kind
              case Open => PublishedLast(worlds, actions, n).None? && !Someone(w, Open)
              case Accept => PublishedLast(worlds, actions, n).Some? && !Connected(worlds, actions, n) && !Someone(w, Accept)
              case Read => Connected(worlds, actions, n) && !Someone(w, Read)
              case Write => Connected(worlds, actions, n);
            if !Shut(worlds, actions, n) && may then At(v, t) == InCall(kind) && v.p.activeCalls == w.p.activeCalls + 1 else v == w
  {
    ExecutionKeeps(worlds, actions, n);
    PipeIsSo(worlds, actions, n);
    FlagsHold(worlds, actions, n);
    assert Leads(worlds[n], actions[n], worlds[n + 1]);
    FlagsExactly(worlds[n]);
    hide Inv, Execution, FlagsOk, Someone;
  }

  lemma FlagsExactly(w: World)
    requires Inv(w) && FlagsOk(w)
    ensures (w.p.opening <==> Someone(w, Open)) && (w.p.accepting <==> Someone(w, Accept)) && (w.p.readerActive <==> Someone(w, Read))
  {
    hide HandlesOk, LockOk;
  }
}
