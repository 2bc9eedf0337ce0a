/** The boundary to the native capture SDK (the crate's `sys` bindings).
    Only the types and fields the Rust wrapper reads or writes are kept.
    A native call is never executed here: its answer is an oracle value
    passed in by the caller of the model. */
module Sys {

  type u8 = bv8
  type u16 = bv16
  type u32 = bv32

  /** `c_char` as laid out on x86_64 (signed). */
  type CChar = x: int | -128 <= x < 128

  /** `MWCAP_PTR` and `HANDLE` values; 0 is the null pointer. */
  type Ptr = nat

  /** `MW_RESULT`: the status code every SDK call returns. */
  datatype MwResult = Succeeded | Failed | ENoData | InvalidParams

  /** The answer of a native call that fills an out-parameter: its status code
      and whatever it wrote (meaningful only on success). */
  datatype NativeRead<T> = NativeRead(result: MwResult, value: T)

  /** `MWCAP_CHANNEL_INFO`, restricted to the fields the wrapper reads. */
  datatype ChannelInfoRaw = ChannelInfoRaw(
    byBoardIndex: u8,
    byChannelIndex: u8,
    szFamilyName: seq<CChar>,
    szProductName: seq<CChar>,
    szFirmwareName: seq<CChar>,
    szBoardSerialNo: seq<CChar>,
    dwFirmwareVersion: u32,
    dwDriverVersion: u32,
    chHardwareVersion: CChar)

  /** A `DWORD` field read as a number: 32 bits, unsigned. */
  type Dword = x: int | 0 <= x < 0x1_0000_0000

  /** `MWCAP_VIDEO_SIGNAL_STATE` codes. */
  const MWCAP_VIDEO_SIGNAL_NONE: int := 0
  const MWCAP_VIDEO_SIGNAL_UNSUPPORTED: int := 1
  const MWCAP_VIDEO_SIGNAL_LOCKING: int := 2
  const MWCAP_VIDEO_SIGNAL_LOCKED: int := 3

  /** `MWCAP_VIDEO_SIGNAL_STATUS`, the fields the wrapper reads. */
  datatype VideoSignalStatusRaw = VideoSignalStatusRaw(state: int, cx: int, cy: int, dwFrameDuration: Dword)

  /** `MWCAP_AUDIO_SIGNAL_STATUS`. */
  datatype AudioSignalStatusRaw = AudioSignalStatusRaw(
    bLPCM: int, wChannelValid: u16, cBitsPerSample: u8, dwSampleRate: u32)

  /** `MWCAP_VIDEO_DEINTERLACE_MODE`. */
  datatype DeinterlaceMode = Weave | Blend | TopField | BottomField

  /** `_MWCAP_VIDEO_ECO_CAPTURE_OPEN`: the parameters of `MWStartVideoEcoCapture`. */
  datatype VideoEcoCaptureOpen = VideoEcoCaptureOpen(
    cx: int, cy: int, dwFOURCC: u32, llFrameDuration: int, hEvent: Ptr)

  /** `_MWCAP_VIDEO_ECO_CAPTURE_STATUS`: `pvFrame` is 0 while no frame is complete. */
  datatype VideoEcoCaptureStatusRaw = VideoEcoCaptureStatusRaw(
    pvContext: Ptr, pvFrame: Ptr, llTimestamp: int)

  /** Samples per audio frame and the maximum channel count, which size
      `adwSamples`. */
  const MWCAP_AUDIO_SAMPLES_PER_FRAME: nat := 192
  const MWCAP_AUDIO_MAX_NUM_CHANNELS: nat := 8

  /** `_MWCAP_AUDIO_CAPTURE_FRAME`. */
  datatype AudioCaptureFrameRaw = AudioCaptureFrameRaw(
    iFrame: int, dwReserved: u32, dwSyncCode: u32, cFrameCount: int,
    llTimestamp: int, adwSamples: seq<u32>)

  /** What `MWCaptureAudioFrame` does to the frame it is handed: its status
      code and the frame's contents afterwards. */
  datatype AudioFill = AudioFill(result: MwResult, filled: AudioCaptureFrameRaw)

  /** The arguments of `MWRegisterNotify` besides the channel handle. */
  datatype NotifyRequest = NotifyRequest(event: Ptr, mask: u32)

  /** The outcome of reading the channel's eventfd counter. */
  datatype EventFdRead = ReadFailed | ReadValue(counter: nat)
}
