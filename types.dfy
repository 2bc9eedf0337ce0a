/** Wrappers around the SDK's data types (src/types.rs): channel identity,
    signal states and statuses, video and audio frames, notify event bits. */
module Types {
  import opened Sys

  // ---------------------------------------------------------------------
  // C strings

  /** `CStr::from_ptr` over a fixed `c_char` array: the bytes before the
      first NUL (the whole array when it holds none). */
  function CStr(bytes: seq<CChar>): (s: seq<CChar>)
    ensures s <= bytes
    ensures forall i :: 0 <= i < |s| ==> s[i] != 0
    ensures |s| < |bytes| ==> bytes[|s|] == 0
  {
    if |bytes| == 0 || bytes[0] == 0 then [] else [bytes[0]] + CStr(bytes[1..])
  }

  /** The bytes of an ASCII string, as `to_str` compares them. */
  function Ascii(s: string): (b: seq<CChar>)
    requires forall i :: 0 <= i < |s| ==> s[i] as int < 128
    ensures |b| == |s|
    ensures forall i :: 0 <= i < |s| ==> b[i] == s[i] as int
  {
    if s == [] then [] else [s[0] as int] + Ascii(s[1..])
  }

  // ---------------------------------------------------------------------
  // Serial-number trimming

  /** A byte the serial trim removes: NUL or space. */
  predicate IsBlank(c: CChar) {
    c == 0 || c == 0x20
  }

  function Zeros(n: nat): (z: seq<CChar>)
    ensures |z| == n && forall i :: 0 <= i < n ==> z[i] == 0
  {
    seq(n, i => 0)
  }

  /** The serial number after `From<MWCAP_CHANNEL_INFO>`: scanning from the
      end, every NUL or space is set to NUL until the first other byte. */
  function TrimSerial(s: seq<CChar>): (r: seq<CChar>)
    ensures |r| == |s|
  {
    if |s| == 0 || !IsBlank(s[|s| - 1]) then s
    else TrimSerial(s[..|s| - 1]) + [0]
  }

  /** The trim in terms of the boundary `k` just past the last byte that is
      neither NUL nor space: everything before `k` is kept, everything from
      `k` on becomes NUL. */
  lemma {:induction false} TrimSerialSplit(s: seq<CChar>, k: nat)
    requires k <= |s|
    requires k == 0 || !IsBlank(s[k - 1])
    requires forall i :: k <= i < |s| ==> IsBlank(s[i])
    ensures TrimSerial(s) == s[..k] + Zeros(|s| - k)
  {
    if |s| == k {
      assert s[..k] == s;
    } else {
      var t := s[..|s| - 1];
      assert t[..k] == s[..k];
      TrimSerialSplit(t, k);
      assert Zeros(|t| - k) + [0] == Zeros(|s| - k);
    }
  }

  /** Every serial has such a boundary, so the trim keeps the bytes up to and
      including the last non-blank one and zeroes exactly the trailing blanks. */
  lemma {:induction false} TrimSerialSpec(s: seq<CChar>)
    ensures exists k :: 0 <= k <= |s| && (k == 0 || !IsBlank(s[k - 1]))
                        && (forall i :: k <= i < |s| ==> IsBlank(s[i]))
                        && TrimSerial(s) == s[..k] + Zeros(|s| - k)
  {
    var k := |s|;
    while k > 0 && IsBlank(s[k - 1])
      invariant 0 <= k <= |s|
      invariant forall i :: k <= i < |s| ==> IsBlank(s[i])
    {
      k := k - 1;
    }
    TrimSerialSplit(s, k);
  }

  /** Trimming twice is trimming once. */
  lemma {:induction false} TrimSerialIdempotent(s: seq<CChar>)
    ensures TrimSerial(TrimSerial(s)) == TrimSerial(s)
  {
    if |s| == 0 || !IsBlank(s[|s| - 1]) {
    } else {
      var t := s[..|s| - 1];
      var r := TrimSerial(t) + [0];
      assert r[..|r| - 1] == TrimSerial(t);
      TrimSerialIdempotent(t);
    }
  }

  // ---------------------------------------------------------------------
  // ChannelInfo

  /** `ChannelInfo`: the identity snapshot, holding the native struct. */
  datatype ChannelInfo = ChannelInfo(inner: ChannelInfoRaw) {

    function BoardIndex(): u8 { inner.byBoardIndex }

    function ChannelIndex(): u8 { inner.byChannelIndex }

    function BoardSerialNumber(): seq<CChar> { CStr(inner.szBoardSerialNo) }

    function FirmwareName(): seq<CChar> { CStr(inner.szFirmwareName) }

    function ProductName(): seq<CChar> { CStr(inner.szProductName) }

    function FamilyName(): seq<CChar> { CStr(inner.szFamilyName) }

    /** `firmware_version`: (major, minor) from the high and low 16 bits. */
    function FirmwareVersion(): (r: (u16, u16))
      ensures ((r.0 as u32) << 16) | (r.1 as u32) == inner.dwFirmwareVersion
    {
      var v := inner.dwFirmwareVersion;
      ((v >> 16) as u16, (v & 0xFFFF) as u16)
    }

    /** `driver_version`: (major, minor, build) from bits 24-31, 16-23 and 0-15. */
    function DriverVersion(): (r: (u8, u8, u16))
      ensures ((r.0 as u32) << 24) | ((r.1 as u32) << 16) | (r.2 as u32) == inner.dwDriverVersion
    {
      var v := inner.dwDriverVersion;
      ((v >> 24) as u8, ((v >> 16) & 0xFF) as u8, (v & 0xFFFF) as u16)
    }

    /** `hardware_version`: the `c_char` read as an unsigned byte, as a char. */
    function HardwareVersion(): (c: char)
      ensures c as int < 256
      ensures c as int == if inner.chHardwareVersion < 0 then inner.chHardwareVersion + 256
                          else inner.chHardwareVersion
    {
      (inner.chHardwareVersion % 256) as char
    }
  }

  /** `From<MWCAP_CHANNEL_INFO>`, as a function: the serial is trimmed and no
      other field changes. */
  function ChannelInfoOf(raw: ChannelInfoRaw): (info: ChannelInfo)
    ensures info.inner.(szBoardSerialNo := raw.szBoardSerialNo) == raw
    ensures info.inner.szBoardSerialNo == TrimSerial(raw.szBoardSerialNo)
  {
    ChannelInfo(raw.(szBoardSerialNo := TrimSerial(raw.szBoardSerialNo)))
  }

  /** `From<MWCAP_CHANNEL_INFO>`: the reverse loop over the serial array,
      zeroing bytes in place on the struct's own copy. */
  method ChannelInfoFrom(raw: ChannelInfoRaw) returns (info: ChannelInfo)
    ensures info == ChannelInfoOf(raw)
  {
    var s := raw.szBoardSerialNo;
    var serial := new CChar[|s|](i requires 0 <= i < |s| => s[i]);
    var i := serial.Length;
    while i > 0
      invariant 0 <= i <= serial.Length
      invariant serial[..i] == s[..i]
      invariant forall j :: i <= j < serial.Length ==> serial[j] == 0 && IsBlank(s[j])
    {
      if serial[i - 1] != 0 && serial[i - 1] != 0x20 {
        break;
      }
      serial[i - 1] := 0;
      i := i - 1;
    }
    TrimSerialSplit(s, i);
    assert serial[..] == s[..i] + Zeros(|s| - i);
    info := ChannelInfo(raw.(szBoardSerialNo := serial[..]));
  }

  // ---------------------------------------------------------------------
  // Video signal state

  datatype VideoSignalState = None | Locked | Locking | Unsupported | Other

  /** The SDK code a known state stands for. */
  function StateCode(s: VideoSignalState): int
    requires s != Other
  {
    match s
    case None => MWCAP_VIDEO_SIGNAL_NONE
    case Locked => MWCAP_VIDEO_SIGNAL_LOCKED
    case Locking => MWCAP_VIDEO_SIGNAL_LOCKING
    case Unsupported => MWCAP_VIDEO_SIGNAL_UNSUPPORTED
  }

  /** `VideoSignalState::from`: the four known codes map to their own
      variants, every other code to `Other`. */
  function VideoSignalStateFrom(code: int): (s: VideoSignalState)
    ensures s == Other <==> code != MWCAP_VIDEO_SIGNAL_NONE && code != MWCAP_VIDEO_SIGNAL_LOCKED
                            && code != MWCAP_VIDEO_SIGNAL_LOCKING && code != MWCAP_VIDEO_SIGNAL_UNSUPPORTED
    ensures s != Other ==> StateCode(s) == code
  {
    if code == MWCAP_VIDEO_SIGNAL_NONE then None
    else if code == MWCAP_VIDEO_SIGNAL_LOCKED then Locked
    else if code == MWCAP_VIDEO_SIGNAL_LOCKING then Locking
    else if code == MWCAP_VIDEO_SIGNAL_UNSUPPORTED then Unsupported
    else Other
  }

  /** Each known variant is produced by exactly its own code. */
  lemma VideoSignalStateRoundTrip(s: VideoSignalState)
    requires s != Other
    ensures VideoSignalStateFrom(StateCode(s)) == s
  {
  }

  // ---------------------------------------------------------------------
  // Durations (`Duration::from_nanos(100 * ticks as u64)`)

  const U64_LIMIT: int := 0x1_0000_0000_0000_0000

  /** Ticks for which `100 * ticks as u64` neither wraps nor overflows. */
  predicate TicksInRange(ticks: int) {
    0 <= ticks && 100 * ticks < U64_LIMIT
  }

  /** A count of 100 ns ticks as nanoseconds. */
  function TicksToNanos(ticks: int): (ns: nat)
    requires TicksInRange(ticks)
    ensures ns < U64_LIMIT
    ensures ns % 100 == 0 && ns / 100 == ticks
  {
    100 * ticks
  }

  // ---------------------------------------------------------------------
  // Signal statuses

  datatype VideoSignalStatus = VideoSignalStatus(inner: VideoSignalStatusRaw) {

    function State(): VideoSignalState { VideoSignalStateFrom(inner.state) }

    /** `image_width`: the C `int` width cast to `u16`, which keeps its low
        16 bits (two's complement for a negative value). */
    function ImageWidth(): (w: int)
      ensures 0 <= w < 0x1_0000 && (inner.cx - w) % 0x1_0000 == 0
      ensures 0 <= inner.cx < 0x1_0000 ==> w == inner.cx
    {
      inner.cx % 0x1_0000
    }

    /** `image_height`: the C `int` height cast to `u16`, as for the width. */
    function ImageHeight(): (h: int)
      ensures 0 <= h < 0x1_0000 && (inner.cy - h) % 0x1_0000 == 0
      ensures 0 <= inner.cy < 0x1_0000 ==> h == inner.cy
    {
      inner.cy % 0x1_0000
    }

    /** `frame_duration`: the native duration in 100 ns ticks, as nanoseconds.
        A 32-bit tick count always fits: `100 *` cannot overflow 64 bits. */
    function FrameDuration(): (ns: nat)
      ensures ns < U64_LIMIT
      ensures ns % 100 == 0 && ns / 100 == inner.dwFrameDuration
    {
      TicksToNanos(inner.dwFrameDuration)
    }
  }

  /** Bits `i..15` of a 16-bit word that are set. */
  function PopCountFrom(w: u16, i: nat): nat
    requires i <= 16
    decreases 16 - i
  {
    if i == 16 then 0
    else (if (w >> i) & 1 == 1 then 1 else 0) + PopCountFrom(w, i + 1)
  }

  /** `count_ones` on a 16-bit word. */
  function PopCount(w: u16): nat {
    PopCountFrom(w, 0)
  }

  /** At most one per remaining bit position. */
  lemma {:induction false} PopCountFromBound(w: u16, i: nat)
    requires i <= 16
    ensures PopCountFrom(w, i) <= 16 - i
    decreases 16 - i
  {
    if i < 16 {
      PopCountFromBound(w, i + 1);
    }
  }

  datatype AudioSignalStatus = AudioSignalStatus(inner: AudioSignalStatusRaw) {

    function IsLpcm(): bool { inner.bLPCM != 0 }

    function BitsPerSample(): u8 { inner.cBitsPerSample }

    function SampleRate(): u32 { inner.dwSampleRate }

    /** `channel_count`: each valid bit of `wChannelValid` is a stereo pair. */
    function ChannelCount(): (n: nat)
      ensures n == 2 * PopCount(inner.wChannelValid)
      ensures n % 2 == 0 && n <= 32
    {
      PopCountFromBound(inner.wChannelValid, 0);
      PopCount(inner.wChannelValid) * 2
    }
  }

  // ---------------------------------------------------------------------
  // Video frames

  /** `EcoVideoCaptureFrame`: a heap buffer and the native descriptor that
      points at it. The array's identity stands for `pvFrame`, the buffer's
      address, which stays put while the frame is moved around. */
  datatype EcoVideoCaptureFrame = EcoVideoCaptureFrame(
    buf: array<u8>,
    cbFrame: nat,
    cbStride: nat,
    bBottomUp: int,
    deinterlaceMode: DeinterlaceMode,
    pvContext: Ptr)

  const U32_LIMIT: int := 0x1_0000_0000

  /** `EcoVideoCaptureFrame::new(size, stride)`: a zero-filled buffer of
      `size` bytes; the descriptor's `DWORD` sizes are `size as _` and
      `stride as _`, so they keep the low 32 bits. */
  method NewEcoVideoCaptureFrame(size: nat, stride: nat) returns (f: EcoVideoCaptureFrame)
    ensures fresh(f.buf) && f.buf.Length == size
    ensures forall i :: 0 <= i < size ==> f.buf[i] == 0
    ensures f.cbFrame == size % U32_LIMIT && f.cbStride == stride % U32_LIMIT
    ensures size < U32_LIMIT ==> f.cbFrame == size
    ensures stride < U32_LIMIT ==> f.cbStride == stride
    ensures f.bBottomUp == 0 && f.deinterlaceMode == Blend && f.pvContext == 0
  {
    var buf := new u8[size](_ => 0);
    f := EcoVideoCaptureFrame(buf, size % U32_LIMIT, stride % U32_LIMIT, 0, Blend, 0);
  }

  /** `EcoVideoCaptureStatus`: a reclaimed frame and the native status that
      released it. */
  datatype EcoVideoCaptureStatus = EcoVideoCaptureStatus(
    frame: EcoVideoCaptureFrame, status: VideoEcoCaptureStatusRaw) {

    /** `into_frame`: gives the frame back for the next submission. */
    function IntoFrame(): EcoVideoCaptureFrame { frame }

    /** `timestamp`: the capture time in 100 ns ticks, as nanoseconds. */
    function Timestamp(): (ns: nat)
      requires TicksInRange(status.llTimestamp)
      ensures ns % 100 == 0 && ns / 100 == status.llTimestamp
    {
      TicksToNanos(status.llTimestamp)
    }
  }

  // ---------------------------------------------------------------------
  // Audio frames

  /** The `Default` audio frame: everything zero. */
  function ZeroAudioFrame(): AudioCaptureFrameRaw {
    AudioCaptureFrameRaw(0, 0, 0, 0, 0,
      seq(MWCAP_AUDIO_SAMPLES_PER_FRAME * MWCAP_AUDIO_MAX_NUM_CHANNELS, _ => 0))
  }

  /** `AudioCaptureFrame`: a caller-owned native frame that
      `capture_audio_frame` fills in place. */
  class AudioCaptureFrame {
    var inner: AudioCaptureFrameRaw

    /** `Default::default`. */
    constructor ()
      ensures inner == ZeroAudioFrame()
    {
      inner := ZeroAudioFrame();
    }

    /** `timestamp`: the frame's time in 100 ns ticks, as nanoseconds. */
    function Timestamp(): (ns: nat)
      reads this
      requires TicksInRange(inner.llTimestamp)
      ensures ns % 100 == 0 && ns / 100 == inner.llTimestamp
    {
      TicksToNanos(inner.llTimestamp)
    }
  }

  // ---------------------------------------------------------------------
  // Notify events (`NotifyEvents`, a `u32` bit set)

  datatype NotifyEvents = NotifyEvents(bits: u32)

  const INPUT_SORUCE_START_SCAN: u32 := 1
  const INPUT_SORUCE_STOP_SCAN: u32 := 2
  const INPUT_SORUCE_SCAN_CHANGE: u32 := 3
  const VIDEO_INPUT_SOURCE_CHANGE: u32 := 4
  const AUDIO_INPUT_SOURCE_CHANGE: u32 := 8
  const INPUT_SPECIFIC_CHANGE: u32 := 16
  const VIDEO_SIGNAL_CHANGE: u32 := 32
  const AUDIO_SIGNAL_CHANGE: u32 := 64
  const VIDEO_FIELD_BUFFERING: u32 := 128
  const VIDEO_FRAME_BUFFERING: u32 := 256
  const VIDEO_FIELD_BUFFERED: u32 := 512
  const VIDEO_FRAME_BUFFERED: u32 := 1024
  const VIDEO_SMPTE_TIME_CODE: u32 := 2048
  const AUDIO_FRAME_BUFFERED: u32 := 4096
  const AUDIO_INPUT_RESET: u32 := 8192
  const VIDEO_SAMPLING_PHASE_CHANGE: u32 := 16384
  const LOOP_THROUGH_CHANGED: u32 := 32768
  const LOOP_THROUGH_EDID_CHANGED: u32 := 65536
  const NEW_SDI_ANC_PACKET: u32 := 131072

  /** The event classes from `VIDEO_INPUT_SOURCE_CHANGE` up, in declaration order. */
  const EventClasses: seq<u32> := [
    VIDEO_INPUT_SOURCE_CHANGE, AUDIO_INPUT_SOURCE_CHANGE, INPUT_SPECIFIC_CHANGE,
    VIDEO_SIGNAL_CHANGE, AUDIO_SIGNAL_CHANGE, VIDEO_FIELD_BUFFERING, VIDEO_FRAME_BUFFERING,
    VIDEO_FIELD_BUFFERED, VIDEO_FRAME_BUFFERED, VIDEO_SMPTE_TIME_CODE, AUDIO_FRAME_BUFFERED,
    AUDIO_INPUT_RESET, VIDEO_SAMPLING_PHASE_CHANGE, LOOP_THROUGH_CHANGED,
    LOOP_THROUGH_EDID_CHANGED, NEW_SDI_ANC_PACKET]

  predicate IsSingleBit(x: u32) {
    x != 0 && x & (x - 1) == 0
  }

  /** Each event class is its own bit, no two share one, none overlaps the
      scan bits, and the scan-change mask is the union of start and stop. */
  lemma NotifyEventBits()
    ensures forall i :: 0 <= i < |EventClasses| ==> IsSingleBit(EventClasses[i])
    ensures forall i, j :: 0 <= i < j < |EventClasses| ==> EventClasses[i] & EventClasses[j] == 0
    ensures forall i :: 0 <= i < |EventClasses| ==> EventClasses[i] & INPUT_SORUCE_SCAN_CHANGE == 0
    ensures IsSingleBit(INPUT_SORUCE_START_SCAN) && IsSingleBit(INPUT_SORUCE_STOP_SCAN)
    ensures INPUT_SORUCE_START_SCAN & INPUT_SORUCE_STOP_SCAN == 0
    ensures INPUT_SORUCE_SCAN_CHANGE == INPUT_SORUCE_START_SCAN | INPUT_SORUCE_STOP_SCAN
  {
  }
}
