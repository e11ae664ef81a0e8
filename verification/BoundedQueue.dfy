// tools/webview2_shared/Wv2BoundedQueue.h: the coalescing bounded queue between the game and the
// browser host, as a value (`Queue`) and as the class that updates it in place.
module BoundedQueues {
  import opened Wrappers

  datatype Item<T> = Item(value: T, coalesceKey: string)

  datatype PushResult = Queued | Coalesced | Full | Closed

  datatype Queue<T> = Queue(capacity: nat, items: seq<Item<T>>, closed: bool)

  // Messages whose newest copy replaces an undelivered older one.
  function GameMessageCoalesceKey(typ: string, kind: string, identity: string): (key: string)
    ensures key != "" <==>
            ((typ == "mouse" && kind == "move") || typ == "resize" || typ == "focus"
             || ((typ == "setHidden" || typ == "setOrder") && identity != ""))
  {
    if typ == "mouse" && kind == "move" then "mouse.move"
    else if typ == "resize" || typ == "focus" then typ
    else if (typ == "setHidden" || typ == "setOrder") && identity != "" then typ + ":" + identity
    else ""
  }

  predicate SameRun<T>(q: Queue<T>, key: string) {
    key != "" && q.items != [] && q.items[|q.items| - 1].coalesceKey == key
  }

  function PushOutcome<T>(q: Queue<T>, key: string): PushResult {
    if q.closed then Closed
    else if SameRun(q, key) then Coalesced
    else if |q.items| >= q.capacity then Full
    else Queued
  }

  function Pushed<T>(q: Queue<T>, value: T, key: string): Queue<T> {
    match PushOutcome(q, key)
    case Queued => q.(items := q.items + [Item(value, key)])
    case Coalesced => q.(items := q.items[|q.items| - 1 := Item(value, key)])
    case _ => q
  }

  predicate Accepted(r: PushResult) {
    r == Queued || r == Coalesced
  }

  predicate CanPrepend<T>(q: Queue<T>, items: seq<Item<T>>) {
    !q.closed && |items| + |q.items| <= q.capacity
  }

  function Prepended<T>(q: Queue<T>, items: seq<Item<T>>): Queue<T> {
    if CanPrepend(q, items) then q.(items := items + q.items) else q
  }

  function Popped<T>(q: Queue<T>): Queue<T> {
    if q.items == [] then q else q.(items := q.items[1..])
  }

  predicate Bounded<T>(q: Queue<T>) {
    |q.items| <= q.capacity
  }

  function Values<T>(items: seq<Item<T>>): (r: seq<T>)
    ensures |r| == |items| && forall i | 0 <= i < |r| :: r[i] == items[i].value
  {
    if items == [] then [] else [items[0].value] + Values(items[1..])
  }

  // ---- what a receiver ends up with -----------------------------------------------------------

  // The state of a receiver that processes the messages in order.
  function Fold<S, T>(apply: (S, T) -> S, s: S, values: seq<T>): S {
    if values == [] then s
    else apply(Fold(apply, s, values[..|values| - 1]), values[|values| - 1])
  }

  function FoldQueue<S, T>(apply: (S, T) -> S, s: S, q: Queue<T>): S {
    Fold(apply, s, Values(q.items))
  }

  // For messages `a` then `b` under the same non-empty key, `b` alone has the effect of both.
  ghost predicate Absorbs<S(!new), T(!new)>(apply: (S, T) -> S, keyOf: T -> string) {
    forall s: S, a: T, b: T :: keyOf(a) == keyOf(b) != "" ==> apply(apply(s, a), b) == apply(s, b)
  }

  // Every queued item carries the key its sender computes for the message, or none.
  ghost predicate Keyed<T>(q: Queue<T>, keyOf: T -> string) {
    forall item | item in q.items :: item.coalesceKey == "" || item.coalesceKey == keyOf(item.value)
  }

  lemma {:induction false} FoldAppend<S, T>(apply: (S, T) -> S, s: S, a: seq<T>, b: seq<T>)
    ensures Fold(apply, s, a + b) == Fold(apply, Fold(apply, s, a), b)
    decreases |b|
  {
    if b == [] {
      assert a + b == a;
    } else {
      FoldAppend(apply, s, a, b[..|b| - 1]);
      assert (a + b)[..|a + b| - 1] == a + b[..|b| - 1];
    }
  }

  // An accepted push has the effect of the message, coalesced or not; a refused one has none.
  lemma PushMeaning<S(!new), T(!new)>(apply: (S, T) -> S, keyOf: T -> string, s: S, q: Queue<T>, value: T, key: string)
    requires Absorbs(apply, keyOf) && Keyed(q, keyOf) && (key == "" || key == keyOf(value))
    ensures FoldQueue(apply, s, Pushed(q, value, key)) ==
            if Accepted(PushOutcome(q, key)) then apply(FoldQueue(apply, s, q), value) else FoldQueue(apply, s, q)
    ensures Keyed(Pushed(q, value, key), keyOf)
  {
    var p := Pushed(q, value, key);
    var before, after := Values(q.items), Values(p.items);
    match PushOutcome(q, key) {
      case Queued =>
        assert after == before + [value];
        assert after[..|after| - 1] == before;
      case Coalesced =>
        var last := q.items[|q.items| - 1];
        assert last in q.items;
        var rest := before[..|before| - 1];
        assert before == rest + [last.value] && after == rest + [value];
        assert after[..|after| - 1] == rest;
        assert apply(apply(Fold(apply, s, rest), last.value), value) == apply(Fold(apply, s, rest), value);
      case _ =>
    }
  }

  lemma ValuesAppend<T>(a: seq<Item<T>>, b: seq<Item<T>>)
    ensures Values(a + b) == Values(a) + Values(b)
  {
    assert forall i | 0 <= i < |a + b| :: Values(a + b)[i] == (Values(a) + Values(b))[i];
  }

  lemma PrependMeaning<S, T>(apply: (S, T) -> S, s: S, q: Queue<T>, items: seq<Item<T>>)
    requires CanPrepend(q, items)
    ensures FoldQueue(apply, s, Prepended(q, items)) == FoldQueue(apply, Fold(apply, s, Values(items)), q)
  {
    hide Fold, Values;
    ValuesAppend(items, q.items);
    FoldAppend(apply, s, Values(items), Values(q.items));
  }

  lemma PopMeaning<S, T>(apply: (S, T) -> S, s: S, q: Queue<T>)
    requires q.items != []
    ensures FoldQueue(apply, s, q) == FoldQueue(apply, apply(s, q.items[0].value), Popped(q))
  {
    var value := q.items[0].value;
    assert Values(q.items) == [value] + Values(q.items[1..]);
    FoldAppend(apply, s, [value], Values(q.items[1..]));
    assert Fold(apply, s, [value]) == apply(Fold(apply, s, [value][..0]), value);
  }

  // ---- runs ------------------------------------------------------------------------------------

  datatype Op<T> = PushOp(value: T, key: string) | PopOp

  // A run of pushes and pops: the queue, the values handed to the receiver, the values accepted.
  datatype Trace<T> = Trace(queue: Queue<T>, delivered: seq<T>, accepted: seq<T>)

  function Do<T>(t: Trace<T>, op: Op<T>): Trace<T> {
    match op
    case PushOp(value, key) =>
      Trace(Pushed(t.queue, value, key), t.delivered,
            if Accepted(PushOutcome(t.queue, key)) then t.accepted + [value] else t.accepted)
    case PopOp =>
      Trace(Popped(t.queue), if t.queue.items == [] then t.delivered else t.delivered + [t.queue.items[0].value], t.accepted)
  }

  function RunOps<T>(q: Queue<T>, ops: seq<Op<T>>): Trace<T> {
    if ops == [] then Trace(q, [], []) else Do(RunOps(q, ops[..|ops| - 1]), ops[|ops| - 1])
  }

  ghost predicate KeysOf<T>(ops: seq<Op<T>>, keyOf: T -> string) {
    forall op | op in ops :: op.PushOp? ==> op.key == "" || op.key == keyOf(op.value)
  }

  // Coalescing preserves meaning: after any run of pushes and pops, what was delivered followed by what is
  // still queued leaves the receiver where every accepted push, processed in order, would have left it.
  lemma {:induction false} CoalescingPreservesMeaning<S(!new), T(!new)>(
      apply: (S, T) -> S, keyOf: T -> string, s: S, q: Queue<T>, ops: seq<Op<T>>)
    requires Absorbs(apply, keyOf) && Keyed(q, keyOf) && KeysOf(ops, keyOf)
    ensures var t := RunOps(q, ops);
            && Keyed(t.queue, keyOf)
            && FoldQueue(apply, Fold(apply, s, t.delivered), t.queue) == Fold(apply, FoldQueue(apply, s, q), t.accepted)
    decreases |ops|
  {
    if ops != [] {
      var op, u := ops[|ops| - 1], RunOps(q, ops[..|ops| - 1]);
      CoalescingPreservesMeaning(apply, keyOf, s, q, ops[..|ops| - 1]);
      var received := Fold(apply, s, u.delivered);
      assert op in ops;
      match op {
        case PushOp(value, key) =>
          PushMeaning(apply, keyOf, received, u.queue, value, key);
          assert (u.accepted + [value])[..|u.accepted|] == u.accepted;
        case PopOp =>
          if u.queue.items != [] {
            var value := u.queue.items[0].value;
            PopMeaning(apply, received, u.queue);
            assert (u.delivered + [value])[..|u.delivered|] == u.delivered;
          }
      }
    }
  }

  // The queue never exceeds its capacity.
  lemma {:induction false} RunKeepsBound<T>(q: Queue<T>, ops: seq<Op<T>>)
    requires Bounded(q)
    ensures Bounded(RunOps(q, ops).queue) && RunOps(q, ops).queue.capacity == q.capacity
    decreases |ops|
  {
    if ops != [] { RunKeepsBound(q, ops[..|ops| - 1]); }
  }

  // The keys of what is queued, read off the operations: a push under the newest item's key replaces that item, any
  // other joins the queue while there is room.
  predicate Replaces(keys: seq<string>, key: string) {
    key != "" && keys != [] && keys[|keys| - 1] == key
  }

  function Outstanding<T>(capacity: nat, keys: seq<string>, ops: seq<Op<T>>): seq<string>
    decreases |ops|
  {
    if ops == [] then keys else
    var before := Outstanding(capacity, keys, ops[..|ops| - 1]);
    match ops[|ops| - 1]
    case PushOp(_, key) => if Replaces(before, key) || |before| >= capacity then before else before + [key]
    case PopOp => if before == [] then before else before[1..]
  }

  function Keys<T>(items: seq<Item<T>>): (r: seq<string>)
    ensures |r| == |items| && forall i | 0 <= i < |r| :: r[i] == items[i].coalesceKey
  {
    if items == [] then [] else [items[0].coalesceKey] + Keys(items[1..])
  }

  lemma OutcomeByKeys<T>(q: Queue<T>, key: string)
    requires !q.closed
    ensures PushOutcome(q, key) == if Replaces(Keys(q.items), key) then Coalesced else if |Keys(q.items)| >= q.capacity then Full else Queued
  {}

  lemma PushedKeys<T>(q: Queue<T>, value: T, key: string)
    requires !q.closed
    ensures var p, keys := Pushed(q, value, key), Keys(q.items);
            && !p.closed && p.capacity == q.capacity
            && Keys(p.items) == if Replaces(keys, key) || |keys| >= q.capacity then keys else keys + [key]
  {
    OutcomeByKeys(q, key);
    hide PushOutcome, Keys;
  }

  lemma PoppedKeys<T>(q: Queue<T>)
    ensures var p, keys := Popped(q), Keys(q.items);
            p.closed == q.closed && p.capacity == q.capacity && Keys(p.items) == if keys == [] then keys else keys[1..]
  {}

  // After any run on an open queue a push is refused exactly when the queue is full and the newest item is not
  // under its key, and is coalesced exactly when it is.
  lemma {:induction false} PushIsRefusedExactlyWhen<T>(q: Queue<T>, ops: seq<Op<T>>, key: string)
    requires !q.closed
    ensures var t, keys := RunOps(q, ops), Outstanding(q.capacity, Keys(q.items), ops);
            && Keys(t.queue.items) == keys && !t.queue.closed && t.queue.capacity == q.capacity
            && PushOutcome(t.queue, key) == if Replaces(keys, key) then Coalesced else if |keys| >= q.capacity then Full else Queued
    decreases |ops|
  {
    hide PushOutcome, Keys, Pushed, Popped, Replaces;
    if ops != [] {
      var u := RunOps(q, ops[..|ops| - 1]);
      PushIsRefusedExactlyWhen(q, ops[..|ops| - 1], "");
      match ops[|ops| - 1]
      case PushOp(value, k) => PushedKeys(u.queue, value, k);
      case PopOp => PoppedKeys(u.queue);
    }
    OutcomeByKeys(RunOps(q, ops).queue, key);
  }

  // The snapshot is what was delivered first, and what is left of it still heads the queue.
  ghost predicate HeadsTheStream<T>(items: seq<Item<T>>, t: Trace<T>) {
    if |t.delivered| <= |items|
    then t.delivered == Values(items)[..|t.delivered|] && items[|t.delivered|..] <= t.queue.items
    else Values(items) <= t.delivered
  }

  lemma SnapshotPushed<T>(items: seq<Item<T>>, t: Trace<T>, value: T, key: string)
    requires HeadsTheStream(items, t) && forall i | 0 <= i < |items| :: items[i].coalesceKey == ""
    ensures HeadsTheStream(items, Do(t, PushOp(value, key)))
  {
    hide Values;
    var n, before := |t.delivered|, t.queue.items;
    if n <= |items| {
      var rest, after := items[n..], Pushed(t.queue, value, key).items;
      assert rest == before[..|rest|];
      assert |rest| == |before| && before != [] ==> before[|before| - 1] == items[|items| - 1];
      assert rest == after[..|rest|];
    }
  }

  lemma SnapshotPopped<T>(items: seq<Item<T>>, t: Trace<T>)
    requires HeadsTheStream(items, t)
    ensures HeadsTheStream(items, Do(t, PopOp))
  {
    var n, before := |t.delivered|, t.queue.items;
    if n <= |items| && before != [] {
      var rest := items[n..];
      if rest != [] {
        assert before[0] == rest[0] == items[n];
        assert items[n + 1..] == rest[1..] && before[1..][..|rest| - 1] == before[..|rest|][1..];
        assert t.delivered + [before[0].value] == Values(items)[..n + 1];
      } else {
        assert t.delivered == Values(items);
      }
    }
  }

  // A snapshot without keys reaches the receiver whole and first, whatever is pushed after it.
  lemma {:induction false} SnapshotIsDeliveredWhole<T>(q: Queue<T>, items: seq<Item<T>>, ops: seq<Op<T>>)
    requires CanPrepend(q, items) && forall i | 0 <= i < |items| :: items[i].coalesceKey == ""
    ensures HeadsTheStream(items, RunOps(Prepended(q, items), ops))
    decreases |ops|
  {
    if ops == [] {
      assert items == (items + q.items)[..|items|];
    } else {
      SnapshotIsDeliveredWhole(q, items, ops[..|ops| - 1]);
      var t := RunOps(Prepended(q, items), ops[..|ops| - 1]);
      match ops[|ops| - 1]
      case PushOp(value, key) => SnapshotPushed(items, t, value, key);
      case PopOp => SnapshotPopped(items, t);
    }
  }

  // ---- the class ---------------------------------------------------------------------------------

  class BoundedQueue<T> {
    const capacity: nat
    var items: seq<Item<T>>
    var closed: bool

    function Abs(): Queue<T>
      reads this
    {
      Queue(capacity, items, closed)
    }

    constructor (capacity: nat)
      ensures Abs() == Queue(capacity, [], false)
    {
      this.capacity := capacity;
      items, closed := [], false;
    }

    method Push(value: T, key: string) returns (r: PushResult)
      modifies this
      ensures r == PushOutcome(old(Abs()), key)
      ensures Abs() == Pushed(old(Abs()), value, key)
    {
      if closed { return Closed; }
      if key != "" && items != [] && items[|items| - 1].coalesceKey == key {
        items := items[..|items| - 1] + [Item(value, key)];
        return Coalesced;
      }
      if |items| >= capacity { return Full; }
      items := items + [Item(value, key)];
      return Queued;
    }

    method Prepend(front: seq<Item<T>>) returns (ok: bool)
      modifies this
      ensures ok == CanPrepend(old(Abs()), front)
      ensures Abs() == Prepended(old(Abs()), front)
    {
      if closed || |front| + |items| > capacity { return false; }
      items := front + items;
      return true;
    }

    // TryPop, and WaitPop once its wait has ended.
    method TryPop() returns (item: Option<Item<T>>)
      modifies this
      ensures Abs() == Popped(old(Abs()))
      ensures item == if old(items) == [] then None else Some(old(items)[0])
    {
      if items == [] { return None; }
      item := Some(items[0]);
      items := items[1..];
    }

    method Clear()
      modifies this
      ensures Abs() == old(Abs()).(items := [])
    {
      items := [];
    }

    method Close()
      modifies this
      ensures Abs() == old(Abs()).(closed := true)
    {
      closed := true;
    }

    method Reset()
      modifies this
      ensures Abs() == old(Abs()).(items := [], closed := false)
    {
      items, closed := [], false;
    }
  }
}
