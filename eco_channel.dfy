/** The Eco-family channel (src/eco_channel.rs): the one-slot ownership
    protocol for video frame buffers handed to the hardware, and the
    eventfd-based wait. */
module Eco {
  import opened Sys
  import opened Errors
  import opened Types
  import opened Fourcc

  /** The frame currently handed to the hardware, if any
      (`video_capture_frame`). */
  type Slot = Option<EcoVideoCaptureFrame>

  datatype SubmitOutcome = SubmitOutcome(result: Result<()>, slot: Slot)

  datatype PollOutcome = PollOutcome(result: Result<Option<EcoVideoCaptureStatus>>, slot: Slot)

  /** `set_video_capture_frame` on a slot: a second submission is refused
      without consulting the SDK; otherwise the frame is held exactly when
      `MWCaptureSetVideoEcoFrame` (answer `native`) accepts it. */
  function SubmitStep(slot: Slot, frame: EcoVideoCaptureFrame, native: MwResult): (o: SubmitOutcome)
    ensures slot.Some? ==> o.result == Err(Whatever("video frame already set")) && o.slot == slot
    ensures o.result.Ok? <==> slot.None? && native == Succeeded
    ensures o.result.Ok? ==> o.slot == Some(frame)
    ensures slot.None? && o.result.Err? ==> o.result.error == Whatever("unable to set video frame") && o.slot == Option.None
  {
    if slot.Some? then SubmitOutcome(Err(Whatever("video frame already set")), slot)
    else if native != Succeeded then SubmitOutcome(Err(Whatever("unable to set video frame")), slot)
    else SubmitOutcome(Ok(()), Some(frame))
  }

  /** `get_video_capture_status` on a slot, given the SDK's status read.
      Errors and "not ready" leave the slot as it was; a frame is handed back
      only when the hardware reports a finished frame, it is exactly the
      frame that was submitted, and the slot is then empty. */
  function PollStep(slot: Slot, read: NativeRead<VideoEcoCaptureStatusRaw>): (o: PollOutcome)
    ensures o.result == Ok(Option.None) <==> read.result == Succeeded && read.value.pvFrame == 0
    ensures o.result.Err? || o.result == Ok(Option.None) ==> o.slot == slot
    ensures o.result.Err? <==> read.result != Succeeded || (read.value.pvFrame != 0 && slot.None?)
    ensures o.result.Err? ==> o.result.error == Whatever(
              if read.result != Succeeded then "unable to get video capture status" else "no video frame set")
    ensures o.result.Ok? && o.result.value.Some? ==>
              && read.value.pvFrame != 0
              && slot.Some?
              && o.result.value.value.IntoFrame() == slot.value
              && o.result.value.value.status == read.value
              && o.slot == Option.None
  {
    if read.result != Succeeded then PollOutcome(Err(Whatever("unable to get video capture status")), slot)
    else if read.value.pvFrame == 0 then PollOutcome(Ok(Option.None), slot)
    else match slot
      case None => PollOutcome(Err(Whatever("no video frame set")), slot)
      case Some(frame) => PollOutcome(Ok(Option.Some(EcoVideoCaptureStatus(frame, read.value))), Option.None)
  }

  /** The parameters `start_video_capture` hands to `MWStartVideoEcoCapture`:
      continuous capture (`llFrameDuration` -1) woken through the eventfd. */
  function CaptureOpenParams(width: u16, height: u16, format: FourCC, eventFd: Ptr): VideoEcoCaptureOpen {
    VideoEcoCaptureOpen(width as int, height as int, format.AsU32(), -1, eventFd)
  }

  class EcoChannel {
    /** The open channel handle (`ChannelHandle`), never null. */
    const handle: Ptr
    const info: ChannelInfo
    /** The eventfd's descriptor: the completion source the SDK signals. */
    const eventFd: Ptr
    var videoCaptureFrame: Slot

    /** The struct literal: a new channel holds no frame. */
    constructor (handle: Ptr, info: ChannelInfo, eventFd: Ptr)
      ensures this.handle == handle && this.info == info && this.eventFd == eventFd
      ensures videoCaptureFrame == Option.None
    {
      this.handle := handle;
      this.info := info;
      this.eventFd := eventFd;
      videoCaptureFrame := Option.None;
    }

    /** `EcoChannel::new`: `eventFd` is the outcome of `EventFd::new`
        (`None` when it fails). */
    static method New(handle: Ptr, info: ChannelInfo, eventFd: Option<Ptr>) returns (r: Result<EcoChannel>)
      ensures r.Err? <==> eventFd.None?
      ensures r.Err? ==> r.error == Whatever("unable to create eventfd")
      ensures r.Ok? ==> && fresh(r.value)
                        && r.value.handle == handle && r.value.info == info
                        && r.value.eventFd == eventFd.value
                        && r.value.videoCaptureFrame == Option.None
    {
      if eventFd.None? {
        return Err(Whatever("unable to create eventfd"));
      }
      var ch := new EcoChannel(handle, info, eventFd.value);
      r := Ok(ch);
    }

    /** `start_video_capture`: `native` answers `MWStartVideoEcoCapture` for
        the parameters it is handed. The frame slot is not touched. */
    method StartVideoCapture(width: u16, height: u16, format: FourCC, native: VideoEcoCaptureOpen -> MwResult)
      returns (r: Result<()>)
      ensures r.Ok? <==> native(CaptureOpenParams(width, height, format, eventFd)) == Succeeded
      ensures r.Err? ==> r.error == Whatever("unable to start video capture")
    {
      var params := VideoEcoCaptureOpen(width as int, height as int, format.AsU32(), -1, eventFd);
      if native(params) != Succeeded {
        return Err(Whatever("unable to start video capture"));
      }
      r := Ok(());
    }

    /** `stop_video_capture`: does not reclaim a submitted frame. */
    method StopVideoCapture(native: MwResult) returns (r: Result<()>)
      ensures r.Ok? <==> native == Succeeded
      ensures r.Err? ==> r.error == Whatever("unable to stop video capture")
    {
      if native != Succeeded {
        return Err(Whatever("unable to stop video capture"));
      }
      r := Ok(());
    }

    /** `set_video_capture_frame`: `native` is the answer of
        `MWCaptureSetVideoEcoFrame`, consulted only when the slot is empty. */
    method SetVideoCaptureFrame(frame: EcoVideoCaptureFrame, native: MwResult) returns (r: Result<()>)
      modifies this
      ensures SubmitOutcome(r, videoCaptureFrame) == SubmitStep(old(videoCaptureFrame), frame, native)
    {
      if videoCaptureFrame.Some? {
        return Err(Whatever("video frame already set"));
      }
      if native != Succeeded {
        return Err(Whatever("unable to set video frame"));
      }
      videoCaptureFrame := Some(frame);
      r := Ok(());
    }

    /** `get_video_capture_status`: `read` is the answer of
        `MWGetVideoEcoCaptureStatus`. */
    method GetVideoCaptureStatus(read: NativeRead<VideoEcoCaptureStatusRaw>)
      returns (r: Result<Option<EcoVideoCaptureStatus>>)
      modifies this
      ensures PollOutcome(r, videoCaptureFrame) == PollStep(old(videoCaptureFrame), read)
    {
      if read.result != Succeeded {
        return Err(Whatever("unable to get video capture status"));
      }
      var status := read.value;
      if status.pvFrame == 0 {
        return Ok(Option.None);
      }
      var taken := videoCaptureFrame;
      videoCaptureFrame := Option.None;
      if taken.None? {
        return Err(Whatever("no video frame set"));
      }
      r := Ok(Option.Some(EcoVideoCaptureStatus(taken.value, status)));
    }

    /** `wait`: `read` is the outcome of the blocking eventfd read. A zero
        counter is the error signal; any other value is a wake-up. */
    method Wait(read: EventFdRead) returns (r: Result<()>)
      ensures r.Ok? <==> read.ReadValue? && read.counter != 0
      ensures r.Err? ==> r.error == Whatever(if read.ReadFailed? then "unable to read eventfd" else "error event received")
    {
      if read.ReadFailed? {
        return Err(Whatever("unable to read eventfd"));
      }
      if read.counter == 0 {
        return Err(Whatever("error event received"));
      }
      r := Ok(());
    }
  }

  // ---------------------------------------------------------------------
  // Traces of slot operations

  /** One call on the slot with the SDK's answer to it. */
  datatype SlotOp =
    | Submit(frame: EcoVideoCaptureFrame, native: MwResult)
    | Poll(read: NativeRead<VideoEcoCaptureStatusRaw>)

  /** The slot after one call. */
  function Next(slot: Slot, op: SlotOp): Slot {
    match op
    case Submit(frame, native) => SubmitStep(slot, frame, native).slot
    case Poll(read) => PollStep(slot, read).slot
  }

  /** The frame one call hands to the hardware, if it succeeds in doing so. */
  function AcceptedBy(slot: Slot, op: SlotOp): seq<EcoVideoCaptureFrame> {
    match op
    case Submit(frame, native) => if SubmitStep(slot, frame, native).result.Ok? then [frame] else []
    case Poll(_) => []
  }

  /** The frame one call hands back to the caller, if any. */
  function ReturnedBy(slot: Slot, op: SlotOp): seq<EcoVideoCaptureFrame> {
    match op
    case Submit(_, _) => []
    case Poll(read) =>
      var r := PollStep(slot, read).result;
      if r.Ok? && r.value.Some? then [r.value.value.IntoFrame()] else []
  }

  /** The slot after a sequence of calls. */
  function Final(slot: Slot, ops: seq<SlotOp>): Slot
    decreases |ops|
  {
    if ops == [] then slot else Final(Next(slot, ops[0]), ops[1..])
  }

  /** The frames handed to the hardware along a sequence of calls, in order. */
  function Submitted(slot: Slot, ops: seq<SlotOp>): seq<EcoVideoCaptureFrame>
    decreases |ops|
  {
    if ops == [] then [] else AcceptedBy(slot, ops[0]) + Submitted(Next(slot, ops[0]), ops[1..])
  }

  /** The frames handed back to the caller along a sequence of calls, in order. */
  function Reclaimed(slot: Slot, ops: seq<SlotOp>): seq<EcoVideoCaptureFrame>
    decreases |ops|
  {
    if ops == [] then [] else ReturnedBy(slot, ops[0]) + Reclaimed(Next(slot, ops[0]), ops[1..])
  }

  /** The frames the hardware holds in a slot. */
  function Pending(slot: Slot): seq<EcoVideoCaptureFrame> {
    if slot.Some? then [slot.value] else []
  }

  /** One call keeps the books balanced: the frame held before plus the frame
      accepted equals the frame handed back plus the frame held after. */
  lemma StepConserves(slot: Slot, op: SlotOp)
    ensures Pending(slot) + AcceptedBy(slot, op) == ReturnedBy(slot, op) + Pending(Next(slot, op))
  {
  }

  /** No frame is lost or duplicated: what the hardware held plus what was
      submitted equals what was handed back plus what it still holds. */
  lemma {:induction false} FramesConserved(slot: Slot, ops: seq<SlotOp>)
    ensures Pending(slot) + Submitted(slot, ops) == Reclaimed(slot, ops) + Pending(Final(slot, ops))
    decreases |ops|
  {
    if ops != [] {
      var op, rest := ops[0], ops[1..];
      var next := Next(slot, op);
      FramesConserved(next, rest);
      StepConserves(slot, op);
      assert Submitted(slot, ops) == AcceptedBy(slot, op) + Submitted(next, rest);
      assert Reclaimed(slot, ops) == ReturnedBy(slot, op) + Reclaimed(next, rest);
      assert Final(slot, ops) == Final(next, rest);
      Regroup(Pending(slot), AcceptedBy(slot, op), ReturnedBy(slot, op), Pending(next),
              Submitted(next, rest), Reclaimed(next, rest), Pending(Final(next, rest)));
    }
  }

  /** Chaining two balances of frames. */
  lemma Regroup<T>(held: seq<T>, added: seq<T>, returned: seq<T>, mid: seq<T>,
                   later: seq<T>, laterReturned: seq<T>, last: seq<T>)
    requires held + added == returned + mid
    requires mid + later == laterReturned + last
    ensures held + (added + later) == (returned + laterReturned) + last
  {
    calc {
      held + (added + later);
      (held + added) + later;
      (returned + mid) + later;
      returned + (mid + later);
      returned + (laterReturned + last);
    }
  }

  /** From a new channel (empty slot): the frames handed back are, in order,
      the first frames submitted, so each submission comes back at most once
      and only after it was made; at most one frame is outstanding, and it is
      the last one submitted. */
  lemma OneOutstandingFrame(ops: seq<SlotOp>)
    ensures Reclaimed(Option.None, ops) <= Submitted(Option.None, ops)
    ensures |Submitted(Option.None, ops)| == |Reclaimed(Option.None, ops)| + |Pending(Final(Option.None, ops))|
    ensures Final(Option.None, ops).Some? ==>
              var s := Submitted(Option.None, ops); s != [] && Final(Option.None, ops).value == s[|s| - 1]
  {
    FramesConserved(Option.None, ops);
    var s, c, p := Submitted(Option.None, ops), Reclaimed(Option.None, ops), Pending(Final(Option.None, ops));
    assert s == c + p;
    assert c == s[..|c|];
  }

  /** A status read after a completed `wait`: the SDK reports a finished frame. */
  predicate FrameReady(read: NativeRead<VideoEcoCaptureStatusRaw>) {
    read.result == Succeeded && read.value.pvFrame != 0
  }

  /** The capture loop of the crate's test: `set_video_capture_frame`, `wait`,
      `get_video_capture_status`, `into_frame`, repeated once per status read. */
  function CaptureLoop(frame: EcoVideoCaptureFrame, polls: seq<NativeRead<VideoEcoCaptureStatusRaw>>): seq<SlotOp>
    decreases |polls|
  {
    if polls == [] then [] else [Submit(frame, Succeeded), Poll(polls[0])] + CaptureLoop(frame, polls[1..])
  }

  /** When every submission and status read succeeds, the loop reuses one
      frame: it is submitted and handed back once per round, and the slot
      ends empty. */
  lemma {:induction false} CaptureLoopReusesFrame(
    frame: EcoVideoCaptureFrame, polls: seq<NativeRead<VideoEcoCaptureStatusRaw>>)
    requires forall i :: 0 <= i < |polls| ==> FrameReady(polls[i])
    ensures Submitted(Option.None, CaptureLoop(frame, polls)) == seq(|polls|, _ => frame)
    ensures Reclaimed(Option.None, CaptureLoop(frame, polls)) == seq(|polls|, _ => frame)
    ensures Final(Option.None, CaptureLoop(frame, polls)) == Option.None
    decreases |polls|
  {
    if polls != [] {
      var ops := CaptureLoop(frame, polls);
      var rest := CaptureLoop(frame, polls[1..]);
      assert ops[1..][1..] == rest;
      CaptureLoopReusesFrame(frame, polls[1..]);
      assert Next(Option.None, ops[0]) == Option.Some(frame);
      assert Next(Option.Some(frame), ops[1..][0]) == Option.None;
      assert seq(|polls|, _ => frame) == [frame] + seq(|polls| - 1, _ => frame);
    }
  }
}
