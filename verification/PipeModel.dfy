// The call-counting open and close protocol of tools/webview2_shared/Wv2Pipe.cpp on values. Every function
// is one critical section of m_stateMutex; handles are numbers.
module PipeModel {
  import opened Wrappers

  datatype CallKind = Open | Accept | Read | Write

  // A published pipe with its two events.
  datatype Handles = Handles(pipe: nat, readEvent: nat, writeEvent: nat)

  datatype PipeState = PipeState(
    handles: Option<Handles>, activeCalls: nat, opening: bool, accepting: bool, readerActive: bool, connected: bool, closing: bool)

  // A new pipe counts as closing until PrepareForOpen.
  const Initial := PipeState(None, 0, false, false, false, false, true)

  predicate CanBegin(p: PipeState, kind: CallKind) {
    && !p.closing
    && match kind
       case Open => !p.opening && p.handles.None?
       case Accept => !p.accepting && !p.connected && p.handles.Some?
       case Read => !p.readerActive && p.connected
       case Write => p.connected
  }

  function BeginCall(p: PipeState, kind: CallKind): PipeState {
    if !CanBegin(p, kind) then p else
    p.(activeCalls := p.activeCalls + 1,
       opening := p.opening || kind == Open, accepting := p.accepting || kind == Accept, readerActive := p.readerActive || kind == Read)
  }

  function EndCall(p: PipeState, kind: CallKind): PipeState {
    p.(activeCalls := if p.activeCalls > 0 then p.activeCalls - 1 else 0,
       opening := p.opening && kind != Open, accepting := p.accepting && kind != Accept, readerActive := p.readerActive && kind != Read)
  }

  // PublishPipe, once its events exist.
  function Publish(p: PipeState, handles: Handles, connected: bool): PipeState {
    if p.closing then p else p.(handles := Some(handles), connected := connected)
  }

  // The end of WaitForClient.
  predicate CanConnect(p: PipeState, pipe: nat) {
    !p.closing && p.handles.Some? && p.handles.value.pipe == pipe
  }

  function SetConnected(p: PipeState, pipe: nat): PipeState {
    if CanConnect(p, pipe) then p.(connected := true) else p
  }

  function MarkClosing(p: PipeState): PipeState {
    p.(closing := true)
  }

  // The rest of CloseLocked, when the last call has ended.
  function Detach(p: PipeState): PipeState {
    p.(handles := None, opening := false, accepting := false, readerActive := false, connected := false)
  }
}
