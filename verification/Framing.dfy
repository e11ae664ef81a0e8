// Length-prefixed framing over a byte pipe (tools/webview2_shared/Wv2Pipe.cpp): four little-endian length
// bytes, then the payload, through reads and writes that may move fewer bytes than asked.
module Framing {
  import opened Wrappers

  newtype byte = x: int | 0 <= x < 256

  const MAX_MESSAGE_BYTES: nat := 8 * 1024 * 1024
  const HEADER_BYTES: nat := 4

  // ---- the format ------------------------------------------------------------------------------------

  function EncodeLength(n: nat): (header: seq<byte>)
    requires n < 0x1_0000_0000
    ensures |header| == HEADER_BYTES
  {
    [(n % 0x100) as byte, (n / 0x100 % 0x100) as byte, (n / 0x1_0000 % 0x100) as byte, (n / 0x100_0000) as byte]
  }

  function DecodeLength(header: seq<byte>): nat
    requires |header| == HEADER_BYTES
  {
    header[0] as int + header[1] as int * 0x100 + header[2] as int * 0x1_0000 + header[3] as int * 0x100_0000
  }

  lemma DecodeUndoesEncode(n: nat)
    requires n < 0x1_0000_0000
    ensures DecodeLength(EncodeLength(n)) == n
  {
    assert n == n % 0x100 + n / 0x100 * 0x100;
    assert n / 0x100 == n / 0x100 % 0x100 + n / 0x100 / 0x100 * 0x100;
    assert n / 0x100 / 0x100 == n / 0x1_0000;
    assert n / 0x1_0000 == n / 0x1_0000 % 0x100 + n / 0x1_0000 / 0x100 * 0x100;
    assert n / 0x1_0000 / 0x100 == n / 0x100_0000;
  }

  predicate ValidPayload(payload: seq<byte>) {
    0 < |payload| <= MAX_MESSAGE_BYTES
  }

  function Frame(payload: seq<byte>): seq<byte>
    requires ValidPayload(payload)
  {
    EncodeLength(|payload|) + payload
  }

  predicate AllValid(payloads: seq<seq<byte>>) {
    forall p | p in payloads :: ValidPayload(p)
  }

  function Stream(payloads: seq<seq<byte>>): seq<byte>
    requires AllValid(payloads)
  {
    if payloads == [] then [] else Frame(payloads[0]) + Stream(payloads[1..])
  }

  // One ReadMessage: the payload and what is left of the stream.
  function ParseFrame(stream: seq<byte>): Option<(seq<byte>, seq<byte>)> {
    if |stream| < HEADER_BYTES then None else
    var n := DecodeLength(stream[..HEADER_BYTES]);
    if n == 0 || n > MAX_MESSAGE_BYTES || |stream| < HEADER_BYTES + n then None
    else Some((stream[HEADER_BYTES..HEADER_BYTES + n], stream[HEADER_BYTES + n..]))
  }

  // Messages read until one fails.
  function ParseAll(stream: seq<byte>): seq<seq<byte>>
    decreases |stream|
  {
    var r := ParseFrame(stream);
    if r.None? then [] else [r.value.0] + ParseAll(r.value.1)
  }

  lemma ParseUndoesFrame(payload: seq<byte>, rest: seq<byte>)
    requires ValidPayload(payload)
    ensures ParseFrame(Frame(payload) + rest) == Some((payload, rest))
  {
    var s := Frame(payload) + rest;
    DecodeUndoesEncode(|payload|);
    assert s[..HEADER_BYTES] == EncodeLength(|payload|);
    assert s[HEADER_BYTES..HEADER_BYTES + |payload|] == payload && s[HEADER_BYTES + |payload|..] == rest;
  }

  // However many whole frames a stream begins with are read back, in order.
  lemma {:induction false} FramesRoundTrip(payloads: seq<seq<byte>>, rest: seq<byte>)
    requires AllValid(payloads)
    ensures ParseAll(Stream(payloads) + rest) == payloads + ParseAll(rest)
    decreases |payloads|
  {
    hide ParseFrame, Frame;
    if payloads == [] {
      assert Stream(payloads) + rest == rest && payloads + ParseAll(rest) == ParseAll(rest);
    } else {
      var tail := Stream(payloads[1..]) + rest;
      assert Stream(payloads) + rest == Frame(payloads[0]) + tail;
      ParseUndoesFrame(payloads[0], tail);
      FramesRoundTrip(payloads[1..], rest);
      assert payloads + ParseAll(rest) == [payloads[0]] + (payloads[1..] + ParseAll(rest));
    }
  }

  // A stream cut short mid-frame yields nothing more.
  lemma CutFrame(payload: seq<byte>, k: nat)
    requires ValidPayload(payload) && k < |Frame(payload)|
    ensures ParseFrame(Frame(payload)[..k]) == None
  {
    var s := Frame(payload)[..k];
    if k >= HEADER_BYTES {
      assert s[..HEADER_BYTES] == EncodeLength(|payload|);
      DecodeUndoesEncode(|payload|);
    }
  }

  // A connection lost after `k` bytes delivers exactly the messages whose frames were complete by then.
  lemma {:induction false} LostConnectionDeliversWholeMessages(payloads: seq<seq<byte>>, k: nat, n: nat)
    requires AllValid(payloads) && n < |payloads|
    requires |Stream(payloads[..n])| <= k < |Stream(payloads[..n])| + |Frame(payloads[n])|
    requires k <= |Stream(payloads)|
    ensures ParseAll(Stream(payloads)[..k]) == payloads[..n]
    decreases n
  {
    hide ParseFrame, Frame;
    if n == 0 {
      assert Stream(payloads)[..k] == Frame(payloads[0])[..k];
      CutFrame(payloads[0], k);
    } else {
      var front, size := payloads[..n], |Frame(payloads[0])|;
      assert front[0] == payloads[0] && front[1..] == payloads[1..][..n - 1];
      var tail := Stream(payloads[1..])[..k - size];
      assert Stream(payloads)[..k] == Frame(payloads[0]) + tail;
      ParseUndoesFrame(payloads[0], tail);
      LostConnectionDeliversWholeMessages(payloads[1..], k - size, n - 1);
      assert payloads[..n] == [payloads[0]] + payloads[1..][..n - 1];
    }
  }

  // ---- the loops ------------------------------------------------------------------------------------

  // What the system does with the next operation: move at least one byte and at most `limit`, or fail.
  datatype Transfer = Moves(limit: nat) | Fails

  predicate NoFailure(plan: seq<Transfer>) {
    forall t | t in plan :: t.Moves?
  }

  function Least(a: nat, b: nat): nat {
    if a < b then a else b
  }

  // Bytes an operation asked for `wanted` (> 0) moves when `available` could move; the system's plan decides.
  function Moved(plan: seq<Transfer>, wanted: nat, available: nat): nat {
    var n := Least(wanted, available);
    if plan == [] then n
    else if plan[0].Fails? then 0
    else Least(n, plan[0].limit + 1)
  }

  class Reader {
    var unread: seq<byte>
    var plan: seq<Transfer>

    constructor (stream: seq<byte>, plan: seq<Transfer>)
      ensures unread == stream && this.plan == plan
    {
      unread, this.plan := stream, plan;
    }

    // ReadFile into buffer[done..bytes]; 0 is a broken pipe or an error.
    method ReadSome(buffer: array<byte>, done: nat, bytes: nat) returns (got: nat)
      requires done < bytes <= buffer.Length
      modifies this, buffer
      ensures got == Moved(old(plan), bytes - done, |old(unread)|) && got <= |old(unread)|
      ensures unread == old(unread)[got..] && plan == if old(plan) == [] then [] else old(plan)[1..]
      ensures buffer[..done + got] == old(buffer[..done]) + old(unread)[..got]
    {
      got := Moved(plan, bytes - done, |unread|);
      for i := 0 to got
        invariant unread == old(unread) && plan == old(plan)
        invariant buffer[..done + i] == old(buffer[..done]) + unread[..i]
      {
        buffer[done + i] := unread[i];
        assert buffer[..done + i + 1] == buffer[..done + i] + [unread[i]];
      }
      unread := unread[got..];
      if plan != [] { plan := plan[1..]; }
    }

    // ReadExact: success exactly fills buffer[..bytes] with the stream's next bytes, whatever the split.
    method ReadExact(buffer: array<byte>, bytes: nat) returns (ok: bool)
      requires bytes <= buffer.Length
      modifies this, buffer
      ensures ok ==> bytes <= |old(unread)| && buffer[..bytes] == old(unread)[..bytes] && unread == old(unread)[bytes..]
      ensures NoFailure(old(plan)) ==> NoFailure(plan) && (ok <==> bytes <= |old(unread)|)
    {
      var done := 0;
      while done < bytes
        invariant done <= bytes && done <= |old(unread)|
        invariant unread == old(unread)[done..] && buffer[..done] == old(unread)[..done]
        invariant NoFailure(old(plan)) ==> NoFailure(plan)
      {
        assert plan != [] ==> plan[0] in plan;
        var got := ReadSome(buffer, done, bytes);
        if got == 0 { return false; }
        assert old(unread)[..done + got] == old(unread)[..done] + old(unread)[done..][..got];
        done := done + got;
      }
      return true;
    }

    // ReadMessage; None is its `false`.
    method ReadMessage() returns (payload: Option<seq<byte>>)
      modifies this
      ensures payload.Some? ==> ParseFrame(old(unread)) == Some((payload.value, unread))
      ensures NoFailure(old(plan)) ==> NoFailure(plan) && (payload.Some? <==> ParseFrame(old(unread)).Some?)
    {
      var header := new byte[HEADER_BYTES];
      var ok := ReadExact(header, HEADER_BYTES);
      if !ok { return None; }
      assert header[..] == old(unread)[..HEADER_BYTES];
      var length := DecodeLength(header[..]);
      if length == 0 || length > MAX_MESSAGE_BYTES { return None; }
      var buffer := new byte[length];
      ok := ReadExact(buffer, length);
      if !ok { return None; }
      assert old(unread)[HEADER_BYTES..][..length] == old(unread)[HEADER_BYTES..HEADER_BYTES + length];
      assert old(unread)[HEADER_BYTES..][length..] == old(unread)[HEADER_BYTES + length..];
      assert buffer[..] == buffer[..length];
      return Some(buffer[..]);
    }

    // Repeated ReadMessage until it fails.
    method ReadAll() returns (payloads: seq<seq<byte>>)
      modifies this
      ensures payloads <= ParseAll(old(unread))
      ensures NoFailure(old(plan)) ==> payloads == ParseAll(old(unread))
      decreases |unread|
    {
      payloads := [];
      while true
        invariant payloads + ParseAll(unread) == ParseAll(old(unread))
        invariant NoFailure(old(plan)) ==> NoFailure(plan)
        decreases |unread|
      {
        ghost var before := unread;
        var next := ReadMessage();
        if next.None? {
          break;
        }
        assert ParseAll(before) == [next.value] + ParseAll(unread);
        payloads := payloads + [next.value];
      }
    }
  }

  datatype WriteResult = Written | InvalidPayload | Disconnected

  class Writer {
    var sent: seq<byte>
    var plan: seq<Transfer>

    constructor (plan: seq<Transfer>)
      ensures sent == [] && this.plan == plan
    {
      sent, this.plan := [], plan;
    }

    // WriteFile of data[done..].
    method WriteSome(data: array<byte>, done: nat, bytes: nat) returns (wrote: nat)
      requires done < bytes <= data.Length
      modifies this
      ensures wrote == Moved(old(plan), bytes - done, bytes - done) && done + wrote <= bytes
      ensures sent == old(sent) + data[done..done + wrote] && plan == if old(plan) == [] then [] else old(plan)[1..]
    {
      wrote := Moved(plan, bytes - done, bytes - done);
      sent := sent + data[done..done + wrote];
      if plan != [] { plan := plan[1..]; }
    }

    method WriteAll(data: array<byte>, bytes: nat) returns (result: WriteResult)
      requires bytes <= data.Length
      modifies this
      ensures result == Written || result == Disconnected
      ensures result == Written ==> sent == old(sent) + data[..bytes]
      ensures result == Disconnected ==> exists k | 0 <= k < bytes :: sent == old(sent) + data[..k]
      ensures NoFailure(old(plan)) ==> result == Written && NoFailure(plan)
    {
      var done := 0;
      while done < bytes
        invariant done <= bytes && sent == old(sent) + data[..done]
        invariant NoFailure(old(plan)) ==> NoFailure(plan)
      {
        assert plan != [] ==> plan[0] in plan;
        var wrote := WriteSome(data, done, bytes);
        if wrote == 0 { return Disconnected; }
        assert data[..done + wrote] == data[..done] + data[done..done + wrote];
        done := done + wrote;
      }
      return Written;
    }

    // Under the write lock: a whole frame, a proper prefix of it when the connection drops, or nothing.
    method WriteMessage(payload: array<byte>) returns (result: WriteResult)
      modifies this
      ensures result == InvalidPayload <==> !ValidPayload(payload[..])
      ensures result == InvalidPayload ==> sent == old(sent) && plan == old(plan)
      ensures result == Written ==> sent == old(sent) + Frame(payload[..])
      ensures result == Disconnected ==> exists k | 0 <= k < |Frame(payload[..])| :: sent == old(sent) + Frame(payload[..])[..k]
      ensures ValidPayload(payload[..]) && NoFailure(old(plan)) ==> result == Written && NoFailure(plan)
    {
      if payload.Length == 0 || payload.Length > MAX_MESSAGE_BYTES { return InvalidPayload; }
      var encoded := EncodeLength(payload.Length);
      var header := new byte[HEADER_BYTES](i requires 0 <= i < HEADER_BYTES => encoded[i]);
      assert header[..] == encoded;
      result := WriteAll(header, HEADER_BYTES);
      if result != Written {
        ghost var k :| 0 <= k < HEADER_BYTES && sent == old(sent) + header[..k];
        assert header[..k] == Frame(payload[..])[..k];
        return;
      }
      ghost var afterHeader := sent;
      result := WriteAll(payload, payload.Length);
      if result == Disconnected {
        ghost var k :| 0 <= k < payload.Length && sent == afterHeader + payload[..k];
        assert header[..] + payload[..k] == Frame(payload[..])[..HEADER_BYTES + k];
      } else {
        assert payload[..payload.Length] == payload[..];
      }
    }
  }

  // Any payloads written and read back, however both ends split their operations.
  method Exchange(payloads: seq<array<byte>>, writes: seq<Transfer>, readPlan: seq<Transfer>) returns (received: seq<seq<byte>>)
    requires forall i | 0 <= i < |payloads| :: ValidPayload(payloads[i][..])
    requires NoFailure(writes) && NoFailure(readPlan)
    ensures |received| == |payloads| && forall i | 0 <= i < |payloads| :: received[i] == payloads[i][..]
  {
    var writer := new Writer(writes);
    ghost var expected: seq<seq<byte>> := [];
    for i := 0 to |payloads|
      invariant |expected| == i && forall j | 0 <= j < i :: expected[j] == payloads[j][..]
      invariant AllValid(expected) && writer.sent == Stream(expected) && NoFailure(writer.plan)
    {
      var result := writer.WriteMessage(payloads[i]);
      StreamAppend(expected, payloads[i][..]);
      expected := expected + [payloads[i][..]];
    }
    var reader := new Reader(writer.sent, readPlan);
    received := reader.ReadAll();
    FramesRoundTrip(expected, []);
    assert Stream(expected) + [] == Stream(expected) && expected + [] == expected;
  }

  lemma {:induction false} StreamAppend(payloads: seq<seq<byte>>, payload: seq<byte>)
    requires AllValid(payloads) && ValidPayload(payload)
    ensures AllValid(payloads + [payload]) && Stream(payloads + [payload]) == Stream(payloads) + Frame(payload)
  {
    hide Frame;
    if payloads == [] {
      assert [payload][1..] == [];
    } else {
      StreamAppend(payloads[1..], payload);
      assert (payloads + [payload])[1..] == payloads[1..] + [payload];
    }
  }
}
