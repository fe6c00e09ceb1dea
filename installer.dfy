/** `run_installer`: creates the message pipe and its overlapped-read
    event, launches the elevated installer with the "runas" verb, then
    serves the installer's frames until the pipe breaks or the process
    exits. Every exit goes through the cleanup label, which closes
    handle[0] (the event), handle[1] (the process) and the pipe, in that
    order. The platform's answers (pipe and event creation, the launch,
    the outcome of each read and wait) come in as inputs. */
module Installer {
  import opened Common
  import opened Dispatcher

  /** handle[0], handle[1] and pipe_handle. */
  datatype Slot = EventSlot | ProcessSlot | PipeSlot

  /** INVALID_HANDLE_VALUE, NULL, or a handle the OS gave out. */
  datatype HandleValue = Invalid | NullHandle | Live

  /** The answers of the calls made before the read loop. */
  datatype Setup = Setup(
    pointer64: bool,       // sizeof(uintptr_t) >= 8
    wow64: Option<bool>,   // what IsWow64Process reports; None when KERNEL32 has no such entry
    pipeCreated: bool,     // CreateNamedPipe does not return INVALID_HANDLE_VALUE
    eventCreated: bool,    // CreateEvent does not return NULL
    processStarted: bool)  // ShellExecuteEx leaves a non-NULL hProcess

  /** The ShellExecuteEx request: verb, file, parameters, directory. */
  datatype Launch = Launch(verb: string, file: string, parameters: string, directory: string)

  /** The 64-bit installer runs when the library is 64-bit itself, or when
      IsWow64Process exists and says the 32-bit library runs under WOW64. */
  function IsX64(setup: Setup): bool {
    if setup.pointer64 then true else setup.wow64.GetOr(false)
  }

  function ExeName(path: string, x64: bool): string {
    path + (if x64 then "\\installer_x64.exe" else "\\installer_x86.exe")
  }

  function LaunchFor(path: string, x64: bool): Launch {
    Launch("runas", ExeName(path, x64), InfName, path)
  }

  /** What GetOverlappedResult reports once the pipe event is signalled. */
  datatype Completion =
    | AsyncData(frame: Frame)       // success
    | AsyncBrokenPipe               // ERROR_BROKEN_PIPE
    | AsyncMoreData(frame: Frame)   // ERROR_MORE_DATA, with what was read
    | AsyncError                    // any other error

  /** What WaitForMultipleObjects on {event, process} returns. */
  datatype WaitResult = ReadDone(completion: Completion) | ProcessExited | WaitFailed

  /** The outcome of one ReadFile call on the pipe. */
  datatype ReadEvent =
    | SyncData(frame: Frame)        // ReadFile succeeds at once
    | SyncBrokenPipe                // ERROR_BROKEN_PIPE
    | SyncPipeListening             // ERROR_PIPE_LISTENING: sleep and read again
    | SyncError                     // any other error
    | Pending(wait: WaitResult)     // ERROR_IO_PENDING, then the wait

  /** One turn of the read loop: a frame goes to the dispatcher, the loop
      goes round again, or it leaves (after waiting for the process when
      the pipe broke). */
  datatype Step = Dispatched(frame: Frame) | Retry | Finish(waited: bool)

  function StepOf(e: ReadEvent): Step {
    match e
    case SyncData(f) => Dispatched(f)
    case SyncBrokenPipe => Finish(true)
    case SyncPipeListening => Retry
    case SyncError => Retry
    case Pending(ReadDone(AsyncData(f))) => Dispatched(f)
    case Pending(ReadDone(AsyncBrokenPipe)) => Finish(true)
    case Pending(ReadDone(AsyncMoreData(f))) => Dispatched(f)
    case Pending(ReadDone(AsyncError)) => Retry
    case Pending(ProcessExited) => Finish(false)
    case Pending(WaitFailed) => Retry
  }

  /** The frames dispatched while serving `events`, and Some(waited) when
      the loop left, None when the events ran out with the loop still
      reading. */
  datatype Served = Served(frames: seq<Frame>, finish: Option<bool>)

  function Serve(events: seq<ReadEvent>): Served {
    if events == [] then Served([], None)
    else match StepOf(events[0])
      case Finish(w) => Served([], Some(w))
      case Retry => Serve(events[1..])
      case Dispatched(f) =>
        var s := Serve(events[1..]);
        Served([f] + s.frames, s.finish)
  }

  /** The pipe writes a dispatched frame causes. */
  function WriteOf(f: Frame, deviceId: string): seq<string> {
    match ProcessMessage(f, deviceId).action
    case WriteBack(data) => [data]
    case _ => []
  }

  function Writes(frames: seq<Frame>, deviceId: string): seq<string> {
    if frames == [] then []
    else Writes(frames[..|frames| - 1], deviceId) + WriteOf(frames[|frames| - 1], deviceId)
  }

  /** `Returned(r)` once `run_installer` returns r; `Serving` when the
      events ran out while the loop was still reading. */
  datatype Outcome = Returned(code: int) | Serving

  /** Everything a run shows: its outcome, the launch request (None when
      no launch was attempted), the frames dispatched, the writes on the
      pipe, whether it waited for the process, and the handles closed. */
  datatype Trace = Trace(outcome: Outcome, launch: Option<Launch>, frames: seq<Frame>,
                         writes: seq<string>, waitedForExit: bool, closed: seq<Slot>)

  function Expected(path: string, deviceId: string, setup: Setup, events: seq<ReadEvent>): Trace {
    if !setup.pipeCreated then Trace(Returned(-1), None, [], [], false, [])
    else if !setup.eventCreated then Trace(Returned(-1), None, [], [], false, [EventSlot, PipeSlot])
    else
      var launch := Some(LaunchFor(path, IsX64(setup)));
      if !setup.processStarted then Trace(Returned(-1), launch, [], [], false, [EventSlot, PipeSlot])
      else
        var s := Serve(events);
        match s.finish
        case None => Trace(Serving, launch, s.frames, Writes(s.frames, deviceId), false, [])
        case Some(w) =>
          Trace(Returned(0), launch, s.frames, Writes(s.frames, deviceId), w, [EventSlot, ProcessSlot, PipeSlot])
  }

  /** The installer session: the pipe handle and the requested device id,
      which the C code keeps in globals, the two handles of the wait, and
      a log of what the run did. */
  class InstallerSession {
    var pipe: HandleValue
    var event: HandleValue
    var process: HandleValue
    var reqDeviceId: string
    var launch: Option<Launch>
    var frames: seq<Frame>
    var writes: seq<string>
    var waitedForExit: bool
    var closed: seq<Slot>

    constructor ()
      ensures pipe == Invalid && event == Invalid && process == Invalid
      ensures launch == None && frames == [] && writes == [] && closed == []
    {
      pipe, event, process := Invalid, Invalid, Invalid;
      reqDeviceId := "";
      launch := None;
      frames, writes := [], [];
      waitedForExit := false;
      closed := [];
    }

    function Value(slot: Slot): HandleValue
      reads this
    {
      match slot
      case EventSlot => event
      case ProcessSlot => process
      case PipeSlot => pipe
    }

    /** `safe_closehandle`: a handle other than INVALID_HANDLE_VALUE is
        closed and reset. */
    method Close(slot: Slot)
      modifies this`event, this`process, this`pipe, this`closed
      ensures Value(slot) == Invalid
      ensures closed == old(closed) + (if old(Value(slot)) != Invalid then [slot] else [])
      ensures forall s :: s != slot ==> Value(s) == old(Value(s))
    {
      if Value(slot) != Invalid {
        closed := closed + [slot];
        match slot
        case EventSlot => event := Invalid;
        case ProcessSlot => process := Invalid;
        case PipeSlot => pipe := Invalid;
      }
    }

    /** `process_message` on the session's device id. */
    method Dispatch(frame: Frame) returns (code: int)
      requires writes == Writes(frames, reqDeviceId)
      modifies this`frames, this`writes
      ensures frames == old(frames) + [frame]
      ensures writes == old(writes) + WriteOf(frame, reqDeviceId)
      ensures writes == Writes(frames, reqDeviceId)
      ensures code == ProcessMessage(frame, reqDeviceId).code
    {
      var d := ProcessMessage(frame, reqDeviceId);
      WritesSnoc(frames, frame, reqDeviceId);
      frames := frames + [frame];
      match d.action {
        case WriteBack(data) => writes := writes + [data];
        case _ =>
      }
      code := d.code;
    }

    /** `run_installer`. */
    method Run(path: string, deviceId: string, setup: Setup, events: seq<ReadEvent>) returns (outcome: Outcome)
      modifies this
      ensures Trace(outcome, launch, frames, writes, waitedForExit, closed) == Expected(path, deviceId, setup, events)
      ensures outcome.Returned? ==> pipe == Invalid && event == Invalid && process == Invalid
      ensures outcome == Serving ==> pipe == Live && event == Live && process == Live
    {
      reqDeviceId := deviceId;
      event, process := Invalid, Invalid;
      launch, frames, writes, waitedForExit, closed := None, [], [], false, [];
      var x64 := false;
      if !setup.pointer64 {
        if setup.wow64.Some? {
          x64 := setup.wow64.value;
        }
      } else {
        x64 := true;
      }
      assert x64 == IsX64(setup);
      ghost var expected := Expected(path, deviceId, setup, events);
      var r: int;
      if !setup.pipeCreated {
        pipe := Invalid;
        r := -1;
        assert expected == Trace(Returned(-1), None, [], [], false, []);
      } else {
        pipe := Live;
        if !setup.eventCreated {
          event := NullHandle;
          r := -1;
          assert expected == Trace(Returned(-1), None, [], [], false, [EventSlot, PipeSlot]);
        } else {
          event := Live;
          launch := Some(LaunchFor(path, x64));
          if !setup.processStarted {
            r := -1;
            assert expected == Trace(Returned(-1), launch, [], [], false, [EventSlot, PipeSlot]);
          } else {
            process := Live;
            var finished := ServeLoop(events);
            if !finished {
              assert expected == Trace(Serving, launch, frames, writes, false, []);
              return Serving;
            }
            r := 0;
            assert expected == Trace(Returned(0), launch, frames, writes, waitedForExit, [EventSlot, ProcessSlot, PipeSlot]);
          }
        }
      }
      Cleanup();
      outcome := Returned(r);
    }

    /** The `out:` label: handle[0], handle[1] and the pipe, in that order. */
    method Cleanup()
      modifies this`event, this`process, this`pipe, this`closed
      ensures event == Invalid && process == Invalid && pipe == Invalid
      ensures closed == old(closed) + (if old(event) != Invalid then [EventSlot] else [])
                                    + (if old(process) != Invalid then [ProcessSlot] else [])
                                    + (if old(pipe) != Invalid then [PipeSlot] else [])
    {
      Close(EventSlot);
      Close(ProcessSlot);
      Close(PipeSlot);
    }

    /** The `while (1)` read loop; true when it leaves through the cleanup
        label, false when the events ran out first. */
    method ServeLoop(events: seq<ReadEvent>) returns (finished: bool)
      requires frames == [] && writes == [] && !waitedForExit
      modifies this`frames, this`writes, this`waitedForExit
      ensures frames == Serve(events).frames && writes == Writes(frames, reqDeviceId)
      ensures finished <==> Serve(events).finish.Some?
      ensures waitedForExit == (Serve(events).finish == Some(true))
    {
      var i := 0;
      finished := false;
      while i < |events| && !finished
        invariant 0 <= i <= |events|
        invariant writes == Writes(frames, reqDeviceId)
        invariant !finished ==> !waitedForExit
        invariant !finished ==> Serve(events) == Served(frames + Serve(events[i..]).frames, Serve(events[i..]).finish)
        invariant finished ==> Serve(events) == Served(frames, Some(waitedForExit))
        decreases |events| - i, !finished
      {
        var e := events[i];
        ServeFrom(events, i);
        ghost var before, later := frames, Serve(events[i + 1..]).frames;
        match e {
          case SyncData(f) =>
            var _ := Dispatch(f);
            SnocAssoc(before, f, later);
          case SyncBrokenPipe =>
            waitedForExit := true;
            finished := true;
          case SyncPipeListening =>
          case SyncError =>
          case Pending(w) =>
            match w {
              case ReadDone(c) =>
                match c {
                  case AsyncData(f) =>
                    var _ := Dispatch(f);
                    SnocAssoc(before, f, later);
                  case AsyncBrokenPipe =>
                    waitedForExit := true;
                    finished := true;
                  case AsyncMoreData(f) =>
                    var _ := Dispatch(f);
                    SnocAssoc(before, f, later);
                  case AsyncError =>
                }
              case ProcessExited =>
                finished := true;
              case WaitFailed =>
            }
        }
        i := i + 1;
      }
      if !finished {
        assert events[i..] == [];
        assert frames + [] == frames;
      }
    }
  }

  /** One turn of the loop, seen from the position `i` it starts at. */
  lemma ServeFrom(events: seq<ReadEvent>, i: nat)
    requires i < |events|
    ensures Serve(events[i..]) ==
      match StepOf(events[i])
      case Finish(w) => Served([], Some(w))
      case Retry => Serve(events[i + 1..])
      case Dispatched(f) => Served([f] + Serve(events[i + 1..]).frames, Serve(events[i + 1..]).finish)
  {
    assert events[i..][0] == events[i] && events[i..][1..] == events[i + 1..];
  }

  lemma SnocAssoc(a: seq<Frame>, f: Frame, b: seq<Frame>)
    ensures a + ([f] + b) == (a + [f]) + b && a + [] == a
  {
  }

  lemma WritesSnoc(frames: seq<Frame>, f: Frame, deviceId: string)
    ensures Writes(frames + [f], deviceId) == Writes(frames, deviceId) + WriteOf(f, deviceId)
  {
    assert (frames + [f])[..|frames|] == frames;
  }

  /** The events that end the read loop: a broken pipe, seen by ReadFile
      or by GetOverlappedResult, and the exit of the installer process. */
  predicate IsTerminal(e: ReadEvent) {
    e.SyncBrokenPipe?
    || (e.Pending? && (e.wait.ProcessExited? || (e.wait.ReadDone? && e.wait.completion.AsyncBrokenPipe?)))
  }

  /** The frame an event hands to `process_message`, if any. */
  function DataOf(e: ReadEvent): seq<Frame> {
    match e
    case SyncData(f) => [f]
    case Pending(ReadDone(AsyncData(f))) => [f]
    case Pending(ReadDone(AsyncMoreData(f))) => [f]
    case _ => []
  }

  function DataFrames(events: seq<ReadEvent>): seq<Frame> {
    if events == [] then [] else DataOf(events[0]) + DataFrames(events[1..])
  }

  /** The index of the first terminal event, or |events| when none is. */
  function FirstTerminal(events: seq<ReadEvent>): (k: nat)
    ensures k <= |events|
    ensures k < |events| ==> IsTerminal(events[k])
    ensures forall j :: 0 <= j < k ==> !IsTerminal(events[j])
  {
    if events == [] then 0
    else if IsTerminal(events[0]) then 0
    else 1 + FirstTerminal(events[1..])
  }

  /** The read loop dispatches every data frame before the first terminal
      event, in order, and nothing after it; it leaves exactly when a
      terminal event comes, and it waits for the process unless that event
      is the process exit itself. */
  lemma {:induction false} ServeCharacterised(events: seq<ReadEvent>)
    ensures Serve(events).frames == DataFrames(events[..FirstTerminal(events)])
    ensures Serve(events).finish ==
      (if FirstTerminal(events) < |events| then Some(events[FirstTerminal(events)] != Pending(ProcessExited)) else None)
  {
    if events != [] {
      var e, rest := events[0], events[1..];
      if !IsTerminal(e) {
        ServeCharacterised(rest);
        var k := FirstTerminal(rest);
        assert events[..k + 1] == [e] + rest[..k];
        assert ([e] + rest[..k])[1..] == rest[..k];
        assert DataOf(e) == (match StepOf(e) case Dispatched(f) => [f] case _ => []);
      } else {
        assert events[..0] == [];
      }
    }
  }

  /** Each write on the pipe is the `strlen` prefix of the device id, one
      per device-id request among the dispatched frames. */
  function GetRequests(frames: seq<Frame>): nat {
    if frames == [] then 0
    else GetRequests(frames[..|frames| - 1]) + (if frames[|frames| - 1] != [] && frames[|frames| - 1][0] == GetDeviceId then 1 else 0)
  }

  lemma {:induction false} WritesEchoDeviceId(frames: seq<Frame>, deviceId: string)
    ensures |Writes(frames, deviceId)| == GetRequests(frames)
    ensures forall i :: 0 <= i < |Writes(frames, deviceId)| ==> Writes(frames, deviceId)[i] == CString(deviceId)
  {
    if frames != [] {
      WritesEchoDeviceId(frames[..|frames| - 1], deviceId);
    }
  }

  predicate SetupSucceeds(setup: Setup) {
    setup.pipeCreated && setup.eventCreated && setup.processStarted
  }

  /** When the pipe, the event or the elevated process cannot be had, the
      call returns -1 without reading anything, and the installer is only
      ever launched once the pipe and the event exist. */
  lemma SetupFailureReturnsError(path: string, deviceId: string, setup: Setup, events: seq<ReadEvent>)
    ensures var t := Expected(path, deviceId, setup, events);
      (t.launch.Some? <==> setup.pipeCreated && setup.eventCreated)
      && (!SetupSucceeds(setup) ==> t.outcome == Returned(-1) && t.frames == [] && t.writes == [] && !t.waitedForExit)
  {
  }

  /** The installer launched is `<path>\installer_x64.exe` when the library
      is 64-bit or runs under WOW64, `<path>\installer_x86.exe` otherwise,
      elevated through the "runas" verb, with the inf file as its argument
      and `path` as its working directory. */
  lemma LaunchTarget(path: string, deviceId: string, setup: Setup, events: seq<ReadEvent>)
    requires setup.pipeCreated && setup.eventCreated
    ensures var l := Expected(path, deviceId, setup, events).launch;
      l.Some? && l.value.verb == "runas" && l.value.parameters == InfName && l.value.directory == path
      && l.value.file[..|path|] == path
      && l.value.file[|path|..] ==
         (if setup.pointer64 || setup.wow64 == Some(true) then "\\installer_x64.exe" else "\\installer_x86.exe")
  {
  }

  /** Once the installer runs, `run_installer` returns 0 exactly when a
      terminal event comes; until then it keeps serving. It then has
      dispatched every data frame before that event, written the device id
      once per request among them, and waited for the process unless the
      process exit was the event. */
  lemma {:induction false} ServingUntilTerminal(path: string, deviceId: string, setup: Setup, events: seq<ReadEvent>)
    requires SetupSucceeds(setup)
    ensures var t := Expected(path, deviceId, setup, events);
      (t.outcome == Returned(0) <==> exists k :: 0 <= k < |events| && IsTerminal(events[k]))
      && (t.outcome != Returned(0) ==> t.outcome == Serving)
      && t.frames == DataFrames(events[..FirstTerminal(events)])
      && |t.writes| == GetRequests(t.frames)
      && (forall i :: 0 <= i < |t.writes| ==> t.writes[i] == CString(deviceId))
      && (t.waitedForExit <==> FirstTerminal(events) < |events| && events[FirstTerminal(events)] != Pending(ProcessExited))
  {
    ServeCharacterised(events);
    WritesEchoDeviceId(Serve(events).frames, deviceId);
    var k := FirstTerminal(events);
    if exists j :: 0 <= j < |events| && IsTerminal(events[j]) {
      assert k < |events|;
    }
  }

  /** Every exit through the cleanup label closes each handle that was
      opened, once, in the order handle[0], handle[1], pipe; a session
      still serving has closed nothing. */
  function Rank(s: Slot): nat {
    match s
    case EventSlot => 0
    case ProcessSlot => 1
    case PipeSlot => 2
  }

  lemma HandlesReleased(path: string, deviceId: string, setup: Setup, events: seq<ReadEvent>)
    ensures var t := Expected(path, deviceId, setup, events);
      (t.outcome.Returned? ==>
         (forall i, j :: 0 <= i < j < |t.closed| ==> Rank(t.closed[i]) < Rank(t.closed[j]))
         && (PipeSlot in t.closed <==> setup.pipeCreated)
         && (EventSlot in t.closed <==> setup.pipeCreated)
         && (ProcessSlot in t.closed <==> SetupSucceeds(setup)))
      && (t.outcome == Serving ==> t.closed == [])
  {
  }

  /** A frame the dispatcher rejects does not end the session: the
      installer can send a print request without payload and still get its
      device id afterwards. */
  lemma RejectedFrameKeepsSession(path: string, deviceId: string, setup: Setup)
    requires SetupSucceeds(setup)
    ensures ProcessMessage([PrintMessage], deviceId).code == -1
    ensures var t := Expected(path, deviceId, setup, [SyncData([PrintMessage]), SyncData([GetDeviceId]), SyncBrokenPipe]);
      t.outcome == Returned(0) && t.writes == [CString(deviceId)] && t.waitedForExit
      && t.closed == [EventSlot, ProcessSlot, PipeSlot]
  {
    var events := [SyncData([PrintMessage]), SyncData([GetDeviceId]), SyncBrokenPipe];
    assert events[1..] == [SyncData([GetDeviceId]), SyncBrokenPipe];
    assert events[1..][1..] == [SyncBrokenPipe];
    assert Serve([SyncBrokenPipe]) == Served([], Some(true));
    assert Serve(events[1..]) == Served([[GetDeviceId]], Some(true));
    assert Serve(events) == Served([[PrintMessage], [GetDeviceId]], Some(true));
    var frames: seq<Frame> := [[PrintMessage], [GetDeviceId]];
    assert frames[..1] == [[PrintMessage]] && frames[..1][..0] == [];
    assert Writes(frames[..1], deviceId) == [];
    assert Writes(frames, deviceId) == [CString(deviceId)];
  }
}
