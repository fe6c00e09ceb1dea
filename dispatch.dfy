/** `process_message`: the handler for one frame read from the installer
    pipe. Byte 0 is the message tag; the only side effects are writing the
    requested device id back on the pipe and showing a diagnostic line. */
module Dispatcher {
  import opened Common

  type Frame = seq<byte>

  /** The two tags of the channel protocol. */
  const GetDeviceId: byte := 0
  const PrintMessage: byte := 1

  /** The one observable action a frame can cause. */
  datatype Action =
    | NoAction
    | WriteBack(data: string)     // WriteFile(pipe_handle, req_device_id, strlen(req_device_id))
    | ShowMessage(text: Frame)    // the debug line "[installer process] ..."

  datatype Dispatch = Dispatch(code: int, action: Action)

  /** Returns 0 for a device-id request and for a print request with a
      payload, -1 for an empty frame, a print request without payload and
      any other tag. Only a device-id request writes, and it writes exactly
      the `strlen` characters of the session's device id. */
  function ProcessMessage(frame: Frame, deviceId: string): (d: Dispatch)
    ensures d.code == 0 || d.code == -1
    ensures d.code == 0 <==> frame != [] && (frame[0] == GetDeviceId || (frame[0] == PrintMessage && |frame| >= 2))
    ensures d.action.WriteBack? <==> frame != [] && frame[0] == GetDeviceId
    ensures d.action.WriteBack? ==> d.action.data == CString(deviceId)
    ensures d.action.ShowMessage? <==> frame != [] && frame[0] == PrintMessage && |frame| >= 2
    ensures d.action.ShowMessage? ==> d.action.text == frame[1..]
  {
    if |frame| == 0 then Dispatch(-1, NoAction)
    else if frame[0] == GetDeviceId then Dispatch(0, WriteBack(CString(deviceId)))
    else if frame[0] == PrintMessage then
      if |frame| < 2 then Dispatch(-1, NoAction) else Dispatch(0, ShowMessage(frame[1..]))
    else Dispatch(-1, NoAction)
  }

  /** A device id without NUL characters is echoed byte for byte, with
      nothing added. */
  lemma EchoesDeviceId(frame: Frame, deviceId: string)
    requires frame != [] && frame[0] == GetDeviceId
    requires forall i :: 0 <= i < |deviceId| ==> deviceId[i] != NUL
    ensures ProcessMessage(frame, deviceId) == Dispatch(0, WriteBack(deviceId))
  {
  }
}
