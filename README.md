# magewell-capture-rs, modelled in Dafny

This project models the Rust bookkeeping that the `magewell-capture` crate keeps around the
Magewell capture SDK. The SDK itself is an opaque native library. Each native call is an
oracle: a parameter that supplies its status code, the handle or token it returns, or the
struct it fills. For some calls the oracle is a function of the arguments the Rust code
passes, such as the `MWStartVideoEcoCapture` parameters, the `MWRegisterNotify` event mask
or the audio frame handed to `MWCaptureAudioFrame`. The model proves what the crate does
with those answers.

Modules follow the source files:

- `Sys` (sys.dfy): the SDK boundary. It holds the native structs the wrapper reads, the
  `MW_RESULT` codes, and the oracle shapes.
- `Errors` (errors.dfy): the crate's single error kind (`snafu::Whatever`, a context message),
  plus `Result` and `Option`.
- `Fourcc` (fourcc.dfy): four-character pixel-format codes packed little-endian into a `u32`.
- `Types` (types.dfy): serial-number trimming (an in-place reverse loop over a copy of the
  array), the version bit fields, the signal-state mapping, the channel count, the
  tick-to-nanosecond scaling, video frame construction, the audio frame class, and the
  notify event bits.
- `ProEcoFamily` (pro_eco_capture_family.dfy): device time, notify registration, audio
  start/stop, and the audio polling protocol. The polling protocol clears the sync marker,
  lets the SDK fill the frame in place, and then classifies the result.
- `Eco` (eco_channel.dfy): the Eco channel of src/eco_channel.rs as a class with a one-frame slot.
  `set_video_capture_frame` and `get_video_capture_status` are specified by the pure step
  functions `SubmitStep` and `PollStep`. Lemmas over whole call sequences prove the
  slot's submit/reclaim discipline: frames come back in the order they were submitted, each at most once,
  and at most one frame is outstanding.
- `Lib` (lib.dfy): all-or-nothing channel enumeration, `Channel::open` with its dispatch on
  the family name "Eco Capture", and the older copy of the Eco frame protocol that lib.rs
  still carries.

`get_device_time` appears twice with identical code, at src/lib.rs:175-185 and
src/pro_eco_capture_family.rs:13-23. Both are modelled by `ProEcoFamily.GetDeviceTime`.
src/lib.rs declares no `eco_channel` module, so the `EcoChannel` that `Channel::open`
returns is the struct of src/lib.rs:204-210. `Lib.Open` therefore builds `Lib.EcoChannel`,
whose status poll has no "not ready" branch (see Findings). `Eco.EcoChannel` models the
corrected class of src/eco_channel.rs. The same holds for src/pro_eco_capture_family.rs:
src/lib.rs declares only the `fourcc` and `types` modules, and its own `ProEcoCaptureFamily`
trait (src/lib.rs:174-186) has only `get_device_time`. The notify and audio members of
`ProEcoFamily` therefore come from the newer file layout, not from the `Channel` that
`Lib.Open` builds.

## Model

| member | source | states |
|---|---|---|
| `Fourcc.New` | src/fourcc.rs:8-10 | Whatever the characters, the low byte of the packed code is the low byte of the first character. Bits shifted past bit 31 are dropped. |
| `Fourcc.NewBytes` | src/fourcc.rs:8-14 | For characters below 256, byte 0 of `as_u32` is `a`, byte 1 is `b`, byte 2 is `c` and byte 3 is `d`. |
| `Fourcc.NewInjective` | src/fourcc.rs:8-10 | Packing is injective on byte-sized characters: equal codes mean equal characters. |
| `Fourcc.BgrCode` | src/lib.rs:361 | `FourCC::new('B','G','R',' ')` is 0x20524742. |
| `Types.CStr` | src/types.rs:5-7 | The C string of a `c_char` array is a prefix of it with no NUL, and it ends at the first NUL (or at the end of the array). |
| `Types.TrimSerialSplit` | src/types.rs:59-64 | Take the boundary just past the last byte that is neither 0 nor 0x20. The trim keeps every byte before it and sets every byte from it on to 0. |
| `Types.TrimSerialSpec` | src/types.rs:59-64 | Every serial has such a boundary: only trailing NULs and spaces are zeroed, the stopping byte and all earlier bytes are kept, and the length is unchanged. |
| `Types.TrimSerialIdempotent` | src/types.rs:59-64 | Trimming an already trimmed serial changes nothing. |
| `Types.ChannelInfoOf` | src/types.rs:55-67 | The conversion changes no field except `szBoardSerialNo`, which becomes the trimmed serial. |
| `Types.ChannelInfoFrom` | src/types.rs:55-67 | The reverse loop that zeroes bytes in place produces exactly `ChannelInfoOf(raw)`. |
| `Types.ChannelInfo.FirmwareVersion` | src/types.rs:38-41 | `(major << 16) \| minor` gives back `dwFirmwareVersion`. |
| `Types.ChannelInfo.DriverVersion` | src/types.rs:43-46 | `(major << 24) \| (minor << 16) \| build` gives back `dwDriverVersion`. |
| `Types.ChannelInfo.HardwareVersion` | src/types.rs:50-52 | The result is the `c_char` read as an unsigned byte: code below 256, negative values shifted up by 256. |
| `Types.VideoSignalStateFrom` | src/types.rs:79-89 | The result is `Other` exactly when the code is none of the four known codes. A known variant carries its own code back. |
| `Types.VideoSignalStateRoundTrip` | src/types.rs:79-89 | Each known variant comes from its own code and from no other, so the four variants are distinct. |
| `Types.VideoSignalStatus.FrameDuration` | src/types.rs:136-138 | For every 32-bit `dwFrameDuration`, the duration is exactly that many 100 ns ticks and fits in 64 bits, so `100 *` never overflows. |
| `Types.VideoSignalStatus.ImageWidth` | src/types.rs:128-130 | The C `int` width cast to `u16` is below 2^16 and agrees with `cx` modulo 2^16 (the low 16 bits). A width already in range is returned unchanged. |
| `Types.VideoSignalStatus.ImageHeight` | src/types.rs:132-134 | The C `int` height cast to `u16` is below 2^16 and agrees with `cy` modulo 2^16. A height already in range is returned unchanged. |
| `Types.PopCountFromBound` | src/types.rs:100-102 | A 16-bit word has at most one set bit per position. |
| `Types.AudioSignalStatus.ChannelCount` | src/types.rs:100-102 | The channel count is twice the popcount of `wChannelValid`, so it is even and at most 32. |
| `Types.NewEcoVideoCaptureFrame` | src/types.rs:154-167 | The frame has a fresh zero-filled buffer of `size` bytes. `cbFrame` and `cbStride` are `size` and `stride` truncated to 32 bits, `bBottomUp` is 0, the deinterlace mode is Blend and the context is 0. |
| `Types.EcoVideoCaptureStatus.Timestamp` | src/types.rs:199-201 | The capture timestamp is exactly `llTimestamp` ticks of 100 ns. |
| `Types.AudioCaptureFrame.constructor` | src/types.rs:208-222 | The default audio frame is all zero, with 192 × 8 sample words. |
| `Types.AudioCaptureFrame.Timestamp` | src/types.rs:241-243 | The audio timestamp is exactly `llTimestamp` ticks of 100 ns. |
| `Types.NotifyEventBits` | src/types.rs:252-273 | Each class from `VIDEO_INPUT_SOURCE_CHANGE` up is a single bit, no two classes overlap, and none overlaps the scan bits. `INPUT_SORUCE_SCAN_CHANGE` is START_SCAN \| STOP_SCAN. |
| `ProEcoFamily.GetDeviceTime` | src/pro_eco_capture_family.rs:13-23 | On native success the result is exactly `ticks` × 100 ns. Any other status gives the error "unable to get device time". |
| `ProEcoFamily.RegisterNotify` | src/pro_eco_capture_family.rs:28-36 | The SDK is asked with the channel's event and `events.bits()`. A zero token fails. Every handle returned wraps exactly the non-zero token. |
| `ProEcoFamily.UnregisterNotify` | src/pro_eco_capture_family.rs:38-45 | Succeeds iff the SDK accepts the handle's token. |
| `ProEcoFamily.UnregisterReleasesRegisteredToken` | src/pro_eco_capture_family.rs:28-45 | Unregistering a handle from `register_notify` hands back exactly the token the SDK issued. |
| `ProEcoFamily.StartAudioCapture` | src/pro_eco_capture_family.rs:47-54 | Succeeds iff the native call succeeds. Otherwise the error is "unable to start audio capture". |
| `ProEcoFamily.StopAudioCaptureAsWritten` | src/pro_eco_capture_family.rs:56-63 | Succeeds iff the native call succeeds. This is the code as written. |
| `ProEcoFamily.StopAudioFailureReadsAsStart` | src/pro_eco_capture_family.rs:56-63 | As written, a failed stop returns the same error as a failed start. |
| `ProEcoFamily.StopAudioCapture` | src/pro_eco_capture_family.rs:56-63 | Succeeds iff the native call succeeds. Otherwise the error is "unable to stop audio capture". |
| `ProEcoFamily.StopAudioFailureDistinct` | src/pro_eco_capture_family.rs:56-63 | With the corrected message, a failed stop and a failed start are distinguishable. |
| `ProEcoFamily.ClassifyAudio` | src/pro_eco_capture_family.rs:71-75 | The result is an error iff the status is neither success nor `ENODATA`. It is `Ok(true)` iff the status is success and the sync marker is set. `ENODATA` is never an error. |
| `ProEcoFamily.CaptureAudioFrame` | src/pro_eco_capture_family.rs:68-77 | The SDK sees the caller's frame with `dwSyncCode` cleared. The frame then holds what the SDK wrote, and the result is the classification of the SDK's status and marker. |
| `ProEcoFamily.StaleSyncCodeNeverReported` | src/pro_eco_capture_family.rs:69-72 | If the SDK leaves the marker as it finds it, no call reports new audio, whatever marker the frame held before. This holds only because the marker is cleared before the native call. |
| `Eco.SubmitStep` | src/eco_channel.rs:71-85 | An occupied slot refuses with "video frame already set" and stays as it was. On an empty slot the result is Ok iff the native call succeeds: the frame is then held, otherwise the slot stays empty. |
| `Eco.PollStep` | src/eco_channel.rs:89-110 | A native failure or `pvFrame == 0` leaves the slot unchanged (error or `Ok(None)`). With a finished frame, an occupied slot returns exactly its frame (same buffer, size and stride) with the native status and becomes empty. An empty slot fails with "no video frame set". |
| `Eco.EcoChannel.constructor` | src/eco_channel.rs:36-41 | A channel built from a handle, identity and eventfd holds no frame. |
| `Eco.EcoChannel.New` | src/eco_channel.rs:34-42 | Fails iff the eventfd cannot be created. Otherwise it returns a fresh channel with an empty slot. |
| `Eco.EcoChannel.StartVideoCapture` | src/eco_channel.rs:44-60 | The SDK gets width, height, the format's `as_u32`, frame duration -1 and the channel's eventfd. The result is Ok iff the SDK accepts. |
| `Eco.EcoChannel.StopVideoCapture` | src/eco_channel.rs:62-69 | Ok iff the native stop succeeds. A submitted frame stays submitted. |
| `Eco.EcoChannel.SetVideoCaptureFrame` | src/eco_channel.rs:71-85 | The result and the new slot are those of `SubmitStep` on the old slot. |
| `Eco.EcoChannel.GetVideoCaptureStatus` | src/eco_channel.rs:89-110 | The result and the new slot are those of `PollStep` on the old slot. |
| `Eco.EcoChannel.Wait` | src/eco_channel.rs:114-124 | Errors when the eventfd read fails or reads 0. Succeeds on any other counter value. |
| `Eco.StepConserves` | src/eco_channel.rs:71-110 | After one set or get call, the frame held before plus the frame accepted equals the frame handed back plus the frame held after. |
| `Eco.FramesConserved` | src/eco_channel.rs:71-110 | Over any sequence of calls, the frames held plus those submitted equal the frames handed back plus those still held. |
| `Eco.OneOutstandingFrame` | src/eco_channel.rs:13-14 | From a new channel, the frames handed back are a prefix of the frames submitted. At most one frame is outstanding, and it is the last one submitted. |
| `Eco.CaptureLoopReusesFrame` | src/lib.rs:378-384 | When every set succeeds and every post-`wait` status read reports a finished frame (`FrameReady`: success and `pvFrame != 0`), n rounds submit and hand back the same frame n times, and the slot ends empty. The test at src/lib.rs:378-384 calls the older poll; by `Lib.LegacyAgreesWhenReady` it gives the same answers on such reads. |
| `Lib.CollectChannelInfo` | src/lib.rs:67-79 | Ok iff every index from `i` to `count` reads successfully. The result then has one converted entry per index, in order. |
| `Lib.GetChannelInfo` | src/lib.rs:50-80 | Init, lock and refresh failures come first. Otherwise the call succeeds iff every index `0..count` reads successfully, and it then returns exactly `max(count, 0)` entries, entry `j` being index `j` converted. |
| `Lib.EcoFamilyNameSpelling` | src/lib.rs:142 | The bytes the family name is compared with are the ASCII spelling of "Eco Capture". |
| `Lib.EcoFamilyBytes` | src/lib.rs:142 | The family test holds iff the raw name array starts with those 11 bytes followed by a NUL or the end of the array. |
| `Lib.OpenOutcome` | src/lib.rs:107-153 | Init, lock, refresh, null-handle and info-read failures each give their own error before any channel exists. Otherwise the result is the Pro variant iff the family is not "Eco Capture". An Eco device gives the Eco variant, or "unable to create eventfd". |
| `Lib.Open` | src/lib.rs:107-153 | The method builds what `OpenOutcome` decides: the same errors, `Pro(ProChannel(handle, info))`, or a fresh `Lib.EcoChannel` (the struct of src/lib.rs:204-210) with that handle, identity and eventfd and an empty slot. |
| `Lib.LegacyPollStep` | src/lib.rs:268-286 | The older copy: a native failure leaves the slot unchanged. On native success it returns the held frame and empties the slot, or fails with "no video frame set". It never answers "not ready". |
| `Lib.LegacyAgreesWhenReady` | src/lib.rs:268-286 | When the hardware reports a finished frame, the older copy agrees with `Eco.PollStep`. |
| `Lib.LegacyReclaimsUnfinishedFrame` | src/lib.rs:268-286 | With `pvFrame == 0`, the older copy hands the submitted frame back while `Eco.PollStep` answers `Ok(None)` and keeps the frame. |
| `Lib.EcoChannel.constructor` | src/lib.rs:204-210 | The older struct starts with an empty slot. |
| `Lib.EcoChannel.SetVideoCaptureFrame` | src/lib.rs:252-266 | The older copy keeps the same at-most-one guard: result and new slot are those of `Eco.SubmitStep`. |
| `Lib.EcoChannel.GetVideoCaptureStatus` | src/lib.rs:268-286 | The result and the new slot are those of `LegacyPollStep`. |
| `Lib.EcoChannel.Wait` | src/lib.rs:288-298 | Errors when the eventfd read fails or reads 0. Succeeds otherwise. |

## Findings

| source | as written | input that shows it | evidently intended | confidence | as-written member | corrected member |
|---|---|---|---|---|---|---|
| src/lib.rs:268-286 | The older `get_video_capture_status` takes the submitted frame after every successful status read. | A successful `MWGetVideoEcoCaptureStatus` with `pvFrame == 0` while a frame is submitted. | Report "no frame yet" and keep the frame submitted, as src/eco_channel.rs:99-101 does, so the caller never gets back a buffer the hardware may still write. | medium (src/eco_channel.rs has the branch, but src/lib.rs declares no module for it, so the crate returns this copy); not executed | `Lib.LegacyReclaimsUnfinishedFrame` | `Eco.PollStep` |
| src/pro_eco_capture_family.rs:56-63 | `stop_audio_capture` fails with "unable to start audio capture". | Any failing `MWStopAudioCapture`. | "unable to stop audio capture" | high; not executed | `ProEcoFamily.StopAudioFailureReadsAsStart` | `ProEcoFamily.StopAudioFailureDistinct` |

## Left out

- The native SDK is not modelled: every call is an oracle parameter. src/lib.cpp, `FourCC::min_stride` and `FourCC::image_size` call inline SDK helpers, so stride and size are opaque inputs.
- The `MW_RESULT` codes are a datatype. The numeric values of the signal-state codes are assumed to follow the SDK header's order (NONE, UNSUPPORTED, LOCKING, LOCKED = 0..3); the proofs use only that they are distinct. The audio sample-array size (192 × 8) is likewise the SDK's.
- `DEVICE_LIST_MUTEX` and the `OnceLock` in `init()` are concurrency primitives. They appear only as oracle booleans: the cached init outcome and whether the lock could be taken. Mutual exclusion is not modelled.
- The blocking eventfd read in `wait` is an oracle outcome (failure or counter value), not a blocking operation.
- `Pin`/`Box` address stability is not modelled. A buffer's identity is its Dafny array reference, and writes by the hardware into a submitted buffer are not modelled.
- `Eco.EcoChannel.SetVideoCaptureFrame` and `Lib.EcoChannel.SetVideoCaptureFrame`: the move of `frame` into the call is not modelled. The caller keeps the frame value and an alias of its buffer, so in the model it could write the buffer while it is submitted or resubmit a refused frame. Rust forbids the first, and on both error paths it drops the refused frame and frees its buffer. The conservation lemmas (`Eco.StepConserves`, `Eco.FramesConserved`, `Eco.OneOutstandingFrame`) count frames passing through the slot; they do not track who owns a buffer.
- `Drop` of `ChannelHandle` (`MWCloseChannel`) is not modelled. The handle is released on every error path after it is opened and at teardown, and release is infallible.
- `Types.CStr`: a `c_char` array without a NUL is read to its end. In Rust, `CStr::from_ptr` on such an array reads past it, which is undefined behaviour.
- `Lib.IsEcoFamily`: `to_str()` UTF-8 validation is not modelled. The comparison with an ASCII literal is modelled as byte equality, which agrees with it.
- `c_char` is modelled as signed, as on x86_64. On aarch64 it is unsigned; that changes only the raw value that `hardware_version` reinterprets, not the result.
- `Types.EcoVideoCaptureStatus.Timestamp`: requires a non-negative `llTimestamp` with `100 * ticks < 2^64` instead of modelling the `as u64` wrap of negative values and the overflow of `100 *`.
- `Types.AudioCaptureFrame.Timestamp`: the same tick range requirement as `Types.EcoVideoCaptureStatus.Timestamp`, for the audio `llTimestamp`.
- `ProEcoFamily.GetDeviceTime`: the same tick range requirement, on success only.
- `AudioCaptureFrame::samples` and its alignment assertion are not modelled: they only reinterpret memory.
- Fields of the native structs the wrapper never reads (`wFamilyID`, `wProductID`, `byFirmwareID`, …) are not modelled. Accessors that only project a field (`board_index`, `channel_index`, `is_lpcm`, `bits_per_sample`, `sample_rate`) are plain functions without contracts.
- src/lib.rs:225-250 repeats `start_video_capture` and `stop_video_capture` unchanged from src/eco_channel.rs:44-69. `Lib.EcoChannel` has no members for them; `Eco.EcoChannel.StartVideoCapture` and `Eco.EcoChannel.StopVideoCapture` model that code, and neither touches the frame slot.
- `get_video_signal_status` (src/lib.rs:161-171) and the status reads of src/universal_capture_family.rs are pass-through reads that only turn a non-success status into an error; they are not modelled.
- src/pro_channel.rs (the native event object of the Pro family and its zero-event check), src/no_deps.rs (link-time stubs) and build.rs (build tooling) are not part of this model.
