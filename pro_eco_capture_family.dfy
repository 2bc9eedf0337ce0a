/** Capabilities shared by the Eco and Pro channel families
    (src/pro_eco_capture_family.rs): device time, notification registration,
    and the audio polling protocol. */
module ProEcoFamily {
  import opened Sys
  import opened Errors
  import opened Types

  /** `NotifyHandle`: the token `MWRegisterNotify` returned. */
  datatype NotifyHandle = NotifyHandle(token: Ptr)

  /** `get_device_time`: the hardware clock, read in 100 ns ticks. */
  function GetDeviceTime(native: NativeRead<int>): (r: Result<nat>)
    requires native.result == Succeeded ==> TicksInRange(native.value)
    ensures r.Ok? <==> native.result == Succeeded
    ensures r.Ok? ==> r.value % 100 == 0 && r.value / 100 == native.value
    ensures r.Err? ==> r.error == Whatever("unable to get device time")
  {
    if native.result != Succeeded then Err(Whatever("unable to get device time"))
    else Ok(TicksToNanos(native.value))
  }

  /** `register_notify`: subscribes the channel's completion source `event`
      to the event classes in `events`; `native` answers `MWRegisterNotify`
      for the arguments it is given. A zero token is a failure, and every
      handle handed out carries a non-zero token. */
  function RegisterNotify(event: Ptr, events: NotifyEvents, native: NotifyRequest -> Ptr): (r: Result<NotifyHandle>)
    ensures r.Ok? <==> native(NotifyRequest(event, events.bits)) != 0
    ensures r.Ok? ==> r.value.token != 0 && r.value.token == native(NotifyRequest(event, events.bits))
    ensures r.Err? ==> r.error == Whatever("unable to register notify")
  {
    var token := native(NotifyRequest(event, events.bits));
    if token == 0 then Err(Whatever("unable to register notify")) else Ok(NotifyHandle(token))
  }

  /** `unregister_notify`: hands the handle's token back to the SDK. */
  function UnregisterNotify(handle: NotifyHandle, native: Ptr -> MwResult): (r: Result<()>)
    ensures r.Ok? <==> native(handle.token) == Succeeded
    ensures r.Err? ==> r.error == Whatever("unable to unregister notify")
  {
    if native(handle.token) != Succeeded then Err(Whatever("unable to unregister notify")) else Ok(())
  }

  /** Unregistering a handle from `register_notify` releases exactly the
      token the SDK issued for that registration. */
  lemma UnregisterReleasesRegisteredToken(
    event: Ptr, events: NotifyEvents, register: NotifyRequest -> Ptr, unregister: Ptr -> MwResult)
    requires RegisterNotify(event, events, register).Ok?
    ensures var h := RegisterNotify(event, events, register).value;
            UnregisterNotify(h, unregister).Ok? <==> unregister(register(NotifyRequest(event, events.bits))) == Succeeded
  {
  }

  /** `start_audio_capture`. */
  function StartAudioCapture(native: MwResult): (r: Result<()>)
    ensures r.Ok? <==> native == Succeeded
    ensures r.Err? ==> r.error == Whatever("unable to start audio capture")
  {
    if native != Succeeded then Err(Whatever("unable to start audio capture")) else Ok(())
  }

  /** `stop_audio_capture` as written: its failure reuses the start message. */
  function StopAudioCaptureAsWritten(native: MwResult): (r: Result<()>)
    ensures r.Ok? <==> native == Succeeded
  {
    if native != Succeeded then Err(Whatever("unable to start audio capture")) else Ok(())
  }

  /** As written, a failed stop cannot be told apart from a failed start. */
  lemma StopAudioFailureReadsAsStart(native: MwResult)
    requires native != Succeeded
    ensures StopAudioCaptureAsWritten(native) == StartAudioCapture(native)
  {
  }

  /** `stop_audio_capture` with the message it evidently means. */
  function StopAudioCapture(native: MwResult): (r: Result<()>)
    ensures r.Ok? <==> native == Succeeded
    ensures r.Err? ==> r.error == Whatever("unable to stop audio capture")
  {
    if native != Succeeded then Err(Whatever("unable to stop audio capture")) else Ok(())
  }

  /** With the corrected message the two failures are distinguishable. */
  lemma StopAudioFailureDistinct(native: MwResult)
    requires native != Succeeded
    ensures StopAudioCapture(native).error != StartAudioCapture(native).error
  {
    assert "unable to stop audio capture"[12] != "unable to start audio capture"[12];
  }

  /** How `capture_audio_frame` reads the SDK's answer: success reports
      whether the sync marker was set, "no data" is a normal `false`, and
      every other status is an error. */
  function ClassifyAudio(result: MwResult, syncCode: u32): (r: Result<bool>)
    ensures r.Err? <==> result != Succeeded && result != ENoData
    ensures r == Ok(true) <==> result == Succeeded && syncCode != 0
    ensures r.Err? ==> r.error == Whatever("unable to capture audio frame")
  {
    match result
    case Succeeded => Ok(syncCode != 0)
    case ENoData => Ok(false)
    case _ => Err(Whatever("unable to capture audio frame"))
  }

  /** The native call as `capture_audio_frame` makes it: on the frame with
      its sync marker cleared. */
  function AudioCall(before: AudioCaptureFrameRaw, native: AudioCaptureFrameRaw -> AudioFill): AudioFill {
    native(before.(dwSyncCode := 0))
  }

  /** `capture_audio_frame`: clears `dwSyncCode`, lets the SDK fill the
      frame in place, then classifies the outcome. */
  method CaptureAudioFrame(frame: AudioCaptureFrame, native: AudioCaptureFrameRaw -> AudioFill)
    returns (r: Result<bool>)
    modifies frame
    ensures frame.inner == AudioCall(old(frame.inner), native).filled
    ensures r == ClassifyAudio(AudioCall(old(frame.inner), native).result, frame.inner.dwSyncCode)
  {
    frame.inner := frame.inner.(dwSyncCode := 0);
    var call := native(frame.inner);
    frame.inner := call.filled;
    match call.result
    case Succeeded =>
      r := Ok(frame.inner.dwSyncCode != 0);
    case ENoData =>
      r := Ok(false);
    case _ =>
      r := Err(Whatever("unable to capture audio frame"));
  }

  /** Because the marker is cleared first, a marker left over from an earlier
      capture is never reported as new audio: if the SDK leaves the marker as
      it finds it, the call cannot return `Ok(true)`, whatever marker the
      frame held before. */
  lemma StaleSyncCodeNeverReported(before: AudioCaptureFrameRaw, native: AudioCaptureFrameRaw -> AudioFill)
    requires forall x :: native(x).filled.dwSyncCode == x.dwSyncCode
    ensures ClassifyAudio(AudioCall(before, native).result, AudioCall(before, native).filled.dwSyncCode) != Ok(true)
  {
  }
}
