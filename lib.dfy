/** The crate root (src/lib.rs): channel enumeration, opening a channel and
    dispatching on its device family, and the older copy of the Eco channel's
    frame protocol that this file still carries. */
module Lib {
  import opened Sys
  import opened Errors
  import opened Types
  import EcoCh = Eco

  // ---------------------------------------------------------------------
  // Enumeration

  /** The per-index reads of `get_channel_info` from index `i` on, collected
      as `collect::<Result<Vec<_>>>` does: all of them or the first failure. */
  function CollectChannelInfo(i: nat, count: int, infoAt: int -> NativeRead<ChannelInfoRaw>)
    : (r: Result<seq<ChannelInfo>>)
    decreases count - i
    ensures r.Ok? <==> forall j :: i <= j < count ==> infoAt(j).result == Succeeded
    ensures r.Ok? ==> |r.value| == (if i < count then count - i else 0)
    ensures r.Ok? ==> forall j :: 0 <= j < |r.value| ==> r.value[j] == ChannelInfoOf(infoAt(i + j).value)
    ensures r.Err? ==> r.error == Whatever("unable to get channel info")
  {
    if count <= i then Ok([])
    else if infoAt(i).result != Succeeded then Err(Whatever("unable to get channel info"))
    else match CollectChannelInfo(i + 1, count, infoAt)
      case Ok(rest) => Ok([ChannelInfoOf(infoAt(i).value)] + rest)
      case Err(e) => Err(e)
  }

  /** `get_channel_info`. The SDK's answers are parameters: `initialized`
      (the cached `MWCaptureInitInstance` outcome), `locked` (whether the
      device-list mutex could be taken), `refresh` (`MWRefreshDevice`),
      `count` (`MWGetChannelCount`, a C `int`) and `infoAt`
      (`MWGetChannelInfoByIndex`). The result is all-or-nothing: one entry
      per index `0..count` in order, or an error if any read fails. */
  function GetChannelInfo(initialized: bool, locked: bool, refresh: MwResult, count: int,
                          infoAt: int -> NativeRead<ChannelInfoRaw>): (r: Result<seq<ChannelInfo>>)
    ensures !initialized ==> r == Err(Whatever("unable to initialize magewell api"))
    ensures initialized && !locked ==> r == Err(Whatever("unable to lock device list"))
    ensures initialized && locked && refresh != Succeeded ==> r == Err(Whatever("unable to refresh device list"))
    ensures r.Ok? <==> && initialized && locked && refresh == Succeeded
                       && forall j :: 0 <= j < count ==> infoAt(j).result == Succeeded
    ensures r.Ok? ==> |r.value| == (if count > 0 then count else 0)
    ensures r.Ok? ==> forall j :: 0 <= j < |r.value| ==> r.value[j] == ChannelInfoOf(infoAt(j).value)
  {
    if !initialized then Err(Whatever("unable to initialize magewell api"))
    else if !locked then Err(Whatever("unable to lock device list"))
    else if refresh != Succeeded then Err(Whatever("unable to refresh device list"))
    else CollectChannelInfo(0, count, infoAt)
  }

  // ---------------------------------------------------------------------
  // Opening a channel

  /** `ProChannel` as this file declares it: a handle and the identity. */
  datatype ProChannel = ProChannel(handle: Ptr, info: ChannelInfo)

  /** `Channel`: the Eco or Pro family variant. The Eco variant holds the
      `EcoChannel` struct declared in this file (below), as src/lib.rs does. */
  datatype Channel = Eco(eco: EcoChannel) | Pro(pro: ProChannel)

  /** The family name that selects the Eco variant, as bytes. */
  function EcoFamilyName(): (name: seq<CChar>)
    ensures |name| == 11 && forall i :: 0 <= i < |name| ==> name[i] != 0
  {
    [0x45, 0x63, 0x6F, 0x20, 0x43, 0x61, 0x70, 0x74, 0x75, 0x72, 0x65]
  }

  /** Those bytes are the ASCII spelling of "Eco Capture". */
  lemma EcoFamilyNameSpelling()
    ensures EcoFamilyName() == Ascii("Eco Capture")
  {
  }

  /** `info.family_name().to_str() == Ok("Eco Capture")`. */
  predicate IsEcoFamily(info: ChannelInfo) {
    info.FamilyName() == EcoFamilyName()
  }

  /** The family test on the raw array: it holds exactly when the array
      starts with the 11 bytes of "Eco Capture" followed by a NUL or by the
      end of the array, so a longer name or a padded one is a Pro device. */
  lemma {:induction false} EcoFamilyBytes(info: ChannelInfo)
    ensures IsEcoFamily(info) <==>
              var fam, name := info.inner.szFamilyName, EcoFamilyName();
              name <= fam && (|fam| == |name| || fam[|name|] == 0)
  {
    var fam, name := info.inner.szFamilyName, EcoFamilyName();
    var s := CStr(fam);
    if name <= fam && (|fam| == |name| || fam[|name|] == 0) {
      assert |s| == |name|;
      assert s == fam[..|s|] && name == fam[..|name|];
    }
  }

  /** What `Channel::open` produces, decided by the SDK's answers. */
  datatype Opened =
    | OpenFailed(error: Error)
    | OpenEco(handle: Ptr, info: ChannelInfo, eventFd: Ptr)
    | OpenPro(channel: ProChannel)

  /** `Channel::open` as a function of the SDK's answers: `initialized`
      (the cached `MWCaptureInitInstance` outcome), `locked` (whether the
      device-list mutex could be taken), `refresh` (`MWRefreshDevice`),
      `openChannel` (`MWOpenChannel`, 0 for a null handle), `infoRead`
      (`MWGetChannelInfo` on the handle) and `eventFd` (`EventFd::new`,
      `None` when it fails). Every failure before the handle exists is
      reported before any channel is touched; a channel is produced only for
      a non-null handle whose identity could be read, and it is the Eco
      variant exactly when the family name is "Eco Capture". */
  function OpenOutcome(boardIndex: u8, channelIndex: u8, initialized: bool, locked: bool, refresh: MwResult,
                       openChannel: (u8, u8) -> Ptr, infoRead: Ptr -> NativeRead<ChannelInfoRaw>,
                       eventFd: Option<Ptr>): (o: Opened)
    ensures !initialized ==> o == OpenFailed(Whatever("unable to initialize magewell api"))
    ensures initialized && !locked ==> o == OpenFailed(Whatever("unable to lock device list"))
    ensures initialized && locked && refresh != Succeeded ==> o == OpenFailed(Whatever("unable to refresh device list"))
    ensures initialized && locked && refresh == Succeeded && openChannel(boardIndex, channelIndex) == 0 ==>
              o == OpenFailed(Whatever("unable to open channel"))
    ensures var handle := openChannel(boardIndex, channelIndex);
            initialized && locked && refresh == Succeeded && handle != 0 && infoRead(handle).result != Succeeded ==>
              o == OpenFailed(Whatever("unable to get channel info"))
    ensures var handle := openChannel(boardIndex, channelIndex);
            !o.OpenFailed? ==> && initialized && locked && refresh == Succeeded && handle != 0
                               && infoRead(handle).result == Succeeded
                               && (o.OpenPro? <==> !IsEcoFamily(ChannelInfoOf(infoRead(handle).value)))
    ensures var handle := openChannel(boardIndex, channelIndex);
            var info := ChannelInfoOf(infoRead(handle).value);
            && initialized && locked && refresh == Succeeded && handle != 0
            && infoRead(handle).result == Succeeded ==>
              if !IsEcoFamily(info) then o == OpenPro(ProChannel(handle, info))
              else if eventFd.None? then o == OpenFailed(Whatever("unable to create eventfd"))
              else o == OpenEco(handle, info, eventFd.value)
  {
    if !initialized then OpenFailed(Whatever("unable to initialize magewell api"))
    else if !locked then OpenFailed(Whatever("unable to lock device list"))
    else if refresh != Succeeded then OpenFailed(Whatever("unable to refresh device list"))
    else
      var handle := openChannel(boardIndex, channelIndex);
      if handle == 0 then OpenFailed(Whatever("unable to open channel"))
      else if infoRead(handle).result != Succeeded then OpenFailed(Whatever("unable to get channel info"))
      else
        var info := ChannelInfoOf(infoRead(handle).value);
        if !IsEcoFamily(info) then OpenPro(ProChannel(handle, info))
        else if eventFd.None? then OpenFailed(Whatever("unable to create eventfd"))
        else OpenEco(handle, info, eventFd.value)
  }

  /** `Channel::open`: builds the channel `OpenOutcome` decides on; a new
      Eco channel holds no frame. */
  method Open(boardIndex: u8, channelIndex: u8, initialized: bool, locked: bool, refresh: MwResult,
              openChannel: (u8, u8) -> Ptr, infoRead: Ptr -> NativeRead<ChannelInfoRaw>,
              eventFd: Option<Ptr>)
    returns (r: Result<Channel>)
    ensures var o := OpenOutcome(boardIndex, channelIndex, initialized, locked, refresh, openChannel, infoRead, eventFd);
            && (o.OpenFailed? ==> r == Err(o.error))
            && (o.OpenPro? ==> r == Ok(Pro(o.channel)))
            && (o.OpenEco? ==> && r.Ok? && r.value.Eco? && fresh(r.value.eco)
                               && r.value.eco.handle == o.handle && r.value.eco.info == o.info
                               && r.value.eco.eventFd == o.eventFd
                               && r.value.eco.videoCaptureFrame == Option.None)
  {
    if !initialized {
      return Err(Whatever("unable to initialize magewell api"));
    }
    if !locked {
      return Err(Whatever("unable to lock device list"));
    }
    if refresh != Succeeded {
      return Err(Whatever("unable to refresh device list"));
    }
    var handle := openChannel(boardIndex, channelIndex);
    if handle == 0 {
      return Err(Whatever("unable to open channel"));
    }
    var read := infoRead(handle);
    if read.result != Succeeded {
      return Err(Whatever("unable to get channel info"));
    }
    var info := ChannelInfoFrom(read.value);
    if info.FamilyName() == EcoFamilyName() {
      if eventFd.None? {
        return Err(Whatever("unable to create eventfd"));
      }
      var ch := new EcoChannel(handle, info, eventFd.value);
      r := Ok(Eco(ch));
    } else {
      r := Ok(Pro(ProChannel(handle, info)));
    }
  }

  // ---------------------------------------------------------------------
  // The older Eco channel kept in this file

  /** `get_video_capture_status` of the older copy: it has no "not ready"
      branch, so on any successful status read it takes the frame out of the
      slot, whether or not the hardware reports a finished frame. */
  function LegacyPollStep(slot: EcoCh.Slot, read: NativeRead<VideoEcoCaptureStatusRaw>)
    : (o: (Result<EcoVideoCaptureStatus>, EcoCh.Slot))
    ensures read.result != Succeeded ==> o == (Err(Whatever("unable to get video capture status")), slot)
    ensures read.result == Succeeded && slot.None? ==> o == (Err(Whatever("no video frame set")), slot)
    ensures o.0.Ok? <==> read.result == Succeeded && slot.Some?
    ensures o.0.Ok? ==> o.0.value.IntoFrame() == slot.value && o.0.value.status == read.value && o.1 == Option.None
  {
    if read.result != Succeeded then (Err(Whatever("unable to get video capture status")), slot)
    else match slot
      case None => (Err(Whatever("no video frame set")), slot)
      case Some(frame) => (Ok(EcoVideoCaptureStatus(frame, read.value)), Option.None)
  }

  /** When the hardware does report a finished frame, the older copy and
      `EcoCh.PollStep` agree. */
  lemma LegacyAgreesWhenReady(slot: EcoCh.Slot, read: NativeRead<VideoEcoCaptureStatusRaw>)
    requires read.result != Succeeded || read.value.pvFrame != 0
    ensures var (legacy, legacySlot) := LegacyPollStep(slot, read);
            var current := EcoCh.PollStep(slot, read);
            && legacySlot == current.slot
            && (legacy.Err? <==> current.result.Err?)
            && (legacy.Ok? ==> current.result == Ok(Option.Some(legacy.value)))
  {
  }

  /** The older copy hands a submitted frame back while the hardware still
      reports no finished frame (`pvFrame == 0`), where `EcoCh.PollStep`
      answers "not ready" and keeps it submitted. */
  lemma LegacyReclaimsUnfinishedFrame(frame: EcoVideoCaptureFrame, status: VideoEcoCaptureStatusRaw)
    requires status.pvFrame == 0
    ensures var read := NativeRead(Succeeded, status);
            && LegacyPollStep(Option.Some(frame), read) == (Ok(EcoVideoCaptureStatus(frame, status)), Option.None)
            && EcoCh.PollStep(Option.Some(frame), read) == EcoCh.PollOutcome(Ok(Option.None), Option.Some(frame))
  {
  }

  /** The older `EcoChannel` struct of this file. */
  class EcoChannel {
    const handle: Ptr
    const info: ChannelInfo
    const eventFd: Ptr
    var videoCaptureFrame: EcoCh.Slot

    constructor (handle: Ptr, info: ChannelInfo, eventFd: Ptr)
      ensures this.handle == handle && this.info == info && this.eventFd == eventFd
      ensures videoCaptureFrame == Option.None
    {
      this.handle := handle;
      this.info := info;
      this.eventFd := eventFd;
      videoCaptureFrame := Option.None;
    }

    /** `set_video_capture_frame`: the same at-most-one guard as the newer copy. */
    method SetVideoCaptureFrame(frame: EcoVideoCaptureFrame, native: MwResult) returns (r: Result<()>)
      modifies this
      ensures EcoCh.SubmitOutcome(r, videoCaptureFrame) == EcoCh.SubmitStep(old(videoCaptureFrame), frame, native)
    {
      if videoCaptureFrame.Some? {
        return Err(Whatever("video frame already set"));
      }
      if native != Succeeded {
        return Err(Whatever("unable to set video frame"));
      }
      videoCaptureFrame := Some(frame);
      r := Ok(());
    }

    /** `get_video_capture_status` of the older copy. */
    method GetVideoCaptureStatus(read: NativeRead<VideoEcoCaptureStatusRaw>)
      returns (r: Result<EcoVideoCaptureStatus>)
      modifies this
      ensures (r, videoCaptureFrame) == LegacyPollStep(old(videoCaptureFrame), read)
    {
      if read.result != Succeeded {
        return Err(Whatever("unable to get video capture status"));
      }
      var taken := videoCaptureFrame;
      videoCaptureFrame := Option.None;
      if taken.None? {
        return Err(Whatever("no video frame set"));
      }
      r := Ok(EcoVideoCaptureStatus(taken.value, read.value));
    }

    /** `wait` of the older copy: the same eventfd protocol. */
    method Wait(read: EventFdRead) returns (r: Result<()>)
      ensures r.Ok? <==> read.ReadValue? && read.counter != 0
      ensures r.Err? ==> r.error == Whatever(if read.ReadFailed? then "unable to read eventfd" else "error event received")
    {
      if read.ReadFailed? {
        return Err(Whatever("unable to read eventfd"));
      }
      if read.counter == 0 {
        return Err(Whatever("error event received"));
      }
      r := Ok(());
    }
  }
}
