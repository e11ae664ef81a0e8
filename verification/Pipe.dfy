// The pipe object: its critical sections change the fields in place.
module Pipes {
  import opened Wrappers
  import opened PipeModel

  class Pipe {
    var handles: Option<Handles>
    var activeCalls: nat
    var opening: bool
    var accepting: bool
    var readerActive: bool
    var connected: bool
    var closing: bool

    function Abs(): PipeState
      reads this
    {
      PipeState(handles, activeCalls, opening, accepting, readerActive, connected, closing)
    }

    constructor ()
      ensures Abs() == Initial
    {
      handles, activeCalls := None, 0;
      opening, accepting, readerActive, connected, closing := false, false, false, false, true;
    }

    method BeginCall(kind: CallKind) returns (ok: bool)
      modifies this
      ensures ok == CanBegin(old(Abs()), kind) && Abs() == PipeModel.BeginCall(old(Abs()), kind)
    {
      if closing { return false; }
      match kind {
        case Open =>
          if opening || handles.Some? { return false; }
          opening := true;
        case Accept =>
          if accepting || connected || handles.None? { return false; }
          accepting := true;
        case Read =>
          if readerActive || !connected { return false; }
          readerActive := true;
        case Write =>
          if !connected { return false; }
      }
      activeCalls := activeCalls + 1;
      return true;
    }

    // `idle` wakes a waiting close.
    method EndCall(kind: CallKind) returns (idle: bool)
      modifies this
      ensures Abs() == PipeModel.EndCall(old(Abs()), kind) && idle == (activeCalls == 0)
    {
      if kind == Open { opening := false; }
      if kind == Accept { accepting := false; }
      if kind == Read { readerActive := false; }
      if activeCalls > 0 { activeCalls := activeCalls - 1; }
      idle := activeCalls == 0;
    }

    method Publish(created: Handles, isConnected: bool) returns (published: bool)
      modifies this
      ensures published == !old(closing) && Abs() == PipeModel.Publish(old(Abs()), created, isConnected)
    {
      if closing { return false; }
      handles, connected := Some(created), isConnected;
      return true;
    }

    method SetConnected(pipe: nat) returns (published: bool)
      modifies this
      ensures published == CanConnect(old(Abs()), pipe) && Abs() == PipeModel.SetConnected(old(Abs()), pipe)
    {
      if closing || handles.None? || handles.value.pipe != pipe { return false; }
      connected := true;
      return true;
    }

    method MarkClosing()
      modifies this
      ensures Abs() == PipeModel.MarkClosing(old(Abs()))
    {
      closing := true;
    }

    // The state change of CloseLocked after its wait; the caller closes what it gets.
    method Detach() returns (taken: Option<Handles>)
      modifies this
      ensures taken == old(handles) && Abs() == PipeModel.Detach(old(Abs()))
    {
      taken := handles;
      handles, opening, accepting, readerActive, connected := None, false, false, false, false;
    }

    method Reopen()
      modifies this
      ensures Abs() == old(Abs()).(closing := false)
    {
      closing := false;
    }
  }
}
