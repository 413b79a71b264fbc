# DS5 frame counters, model identification and emitter control

A Dafny model of the DS5 depth-camera support in librealsense (`src/ds5.h`):

- the two frame timestamp readers, `ds5_timestamp_reader` for image streams and
  `ds5_hid_timestamp_reader` for motion (HID) streams. Each keeps a table of two channels
  (started flag, total, last timestamp, frame counter) and offers `reset`, `validate_frame`,
  `get_frame_timestamp` and `get_frame_counter`;
- `ds5_info::get_subdevice_count`, which maps the product ID of a camera's depth interface
  to its number of sub-devices, and the `rs4xx_sku_pid` table of known product IDs;
- `ds5_camera::emitter_option::get_value_description`, which names the raw emitter control
  values.

Modules, one per component:

| file | module | what it holds |
|---|---|---|
| `results.dfy` | `Results` | the error kinds (`not_implemented_exception`, `invalid_value_exception`) and `Result` |
| `bytes.dfy` | `Bytes` | byte and 16/32-bit integer types, little-endian decoding and its inverse |
| `channels.dfy` | `Channels` | the channel table as a value (reset, one counter bump, a run of requests) with the counting lemmas, and `ChannelTable`, the four vectors as arrays updated in place |
| `frame_validator.dfy` | `FrameValidator` | the non-zero-byte scan both readers run |
| `timestamp_readers.dfy` | `TimestampReaders` | channel selection, the HID timestamp decode, and the classes `ImageTimestampReader` and `HidTimestampReader` |
| `ds5_info.dfy` | `Ds5Info` | the known models, their product IDs and sub-device counts |
| `emitter_option.dfy` | `EmitterOption` | the emitter states and their descriptions |

The two reader classes share one `ChannelTable` class instead of repeating the four vectors
and the reset loop; each reader owns its own table. Every reader method that changes the table is proved against the
value-level functions `Cleared` and `Advance`, and the lemmas about those functions give the
counting guarantee: starting from a reset, the values one channel's requests return are
exactly 1, 2, ..., n, whatever happens on the other channel in between.

Assumptions the model makes explicit:

- The pixel format's byte size (`get_image_size`) and four-character code (`fourcc`) are
  parameters. `validate_frame` requires the frame to hold at least that many bytes, since
  the byte-by-byte walk in the source has no bounds check.
- The HID timestamp is read from the frame in host byte order; the model reads it
  little-endian.
- The multi-character literal `'GYRO'` has an implementation-defined value; the model names
  it `GyroFourcc` and gives it the value GCC, Clang and MSVC use (0x4759524F).
- The HID record test compares the stream's width times height with 14, a count of
  elements rather than the byte length of the buffer; the model follows that.
- The numeric product IDs are defined in `ds5-private.h`, which is not part of this model;
  the model uses 0x0ad1 to 0x0ad5 for RS400P, RS410A, RS420R, RS430C and RS450T. No proof
  depends on these values beyond their being distinct.

## Model

| member | source | states |
|---|---|---|
| `Bytes.DecodeLE` | src/ds5.h:136 | the bytes read as an unsigned integer fit in that many bytes (8 bytes: below 2^64) |
| `Bytes.EncodeLE` | src/ds5.h:136 | writing a value into n bytes and reading it back gives the value |
| `Bytes.EncodeDecodeLE` | src/ds5.h:136 | reading n bytes and writing the value back gives the same bytes |
| `Bytes.DecodeLEInjective` | src/ds5.h:136 | two byte runs of one length with the same value are equal |
| `Channels.Cleared` | src/ds5.h:38-48 | after reset every channel is not started and has total, last timestamp and counter 0 |
| `Channels.Advance` | src/ds5.h:72-80 | a counter request adds exactly 1 to the selected channel's counter and changes nothing else |
| `Channels.CounterTalliesCalls` | src/ds5.h:72-80 | after any run of requests each counter has grown by the number of requests on its channel; started, total and last timestamp are unchanged |
| `Channels.ReturnsRunningCount` | src/ds5.h:72-80 | each request returns its channel's starting counter plus the number of requests on that channel so far, itself included |
| `Channels.NthRequestReturnsN` | src/ds5.h:38-80 | after a reset the n-th request on a channel returns n, so the first returns 1 |
| `Channels.ChannelSeesOneToN` | src/ds5.h:38-80 | after a reset the values one channel's requests return are exactly 1, 2, ..., n: strictly increasing, no repeats, no gaps, whatever the other channel does |
| `Channels.ChannelTable.constructor` | src/ds5.h:31-36 | two-entry vectors, then reset: the table is cleared |
| `Channels.ChannelTable.Reset` | src/ds5.h:38-48 | the loop over the vectors leaves the table equal to the cleared table |
| `Channels.ChannelTable.Increment` | src/ds5.h:79 | `++counter[i]` changes only the counter vector, the table becomes `Advance` of the old one, and the new counter is returned |
| `FrameValidator.ValidateFrame` | src/ds5.h:50-63 | true exactly when some byte among the first image-size bytes is non-zero |
| `FrameValidator.ZeroImageInvalid` | src/ds5.h:50-63 | an all-zero or empty image is not valid |
| `FrameValidator.TrailingBytesIgnored` | src/ds5.h:54 | bytes past the image size do not affect the verdict |
| `TimestampReaders.ImageChannel` | src/ds5.h:75-77 | Z16 selects channel 1 and every other format channel 0 (both directions) |
| `TimestampReaders.HidChannel` | src/ds5.h:144-146 | the 'GYRO' sensor selects channel 1 and every other sensor channel 0 (both directions) |
| `TimestampReaders.HidFrameTimestamp` | src/ds5.h:128-139 | the result is a 64-bit unsigned value, and 0 whenever width times height is not 14 |
| `TimestampReaders.HidTimestampRecoversStamp` | src/ds5.h:131-137 | a 14-element record whose bytes 6..13 hold a 64-bit stamp yields exactly that stamp, whatever its first six bytes |
| `TimestampReaders.HidTimestampReadsOnlyStampBytes` | src/ds5.h:136 | the timestamp depends on bytes 6..13 only, so nothing past byte 13 is read |
| `TimestampReaders.HidTimestampDistinguishesStamps` | src/ds5.h:136 | equal timestamps of 14-element records mean equal bytes 6..13 |
| `TimestampReaders.ImageTimestampReader.constructor` | src/ds5.h:31-36 | a new image reader has a cleared table |
| `TimestampReaders.ImageTimestampReader.Reset` | src/ds5.h:38-48 | the table is cleared, so a second reset changes nothing |
| `TimestampReaders.ImageTimestampReader.ValidateFrame` | src/ds5.h:50-63 | true exactly when some byte of the image is non-zero; no state changes |
| `TimestampReaders.ImageTimestampReader.GetFrameTimestamp` | src/ds5.h:65-70 | always 0; no state changes |
| `TimestampReaders.ImageTimestampReader.GetFrameCounter` | src/ds5.h:72-80 | only the counter of the channel the format selects grows, by 1, and its new value is returned |
| `TimestampReaders.HidTimestampReader.constructor` | src/ds5.h:92-99 | a new HID reader has a cleared table |
| `TimestampReaders.HidTimestampReader.Reset` | src/ds5.h:101-111 | the table is cleared, so a second reset changes nothing |
| `TimestampReaders.HidTimestampReader.ValidateFrame` | src/ds5.h:113-126 | true exactly when some byte of the frame is non-zero; no state changes |
| `TimestampReaders.HidTimestampReader.GetFrameTimestamp` | src/ds5.h:128-139 | a 14-element frame gives the little-endian value of bytes 6..13, any other size 0, as `HidFrameTimestamp` defines it; no state changes |
| `TimestampReaders.HidTimestampReader.GetFrameCounter` | src/ds5.h:141-149 | only the counter of the channel the sensor selects grows, by 1, and its new value is returned |
| `TimestampReaders.NumberImageFrames` | src/ds5.h:38-80 | after a reset, any run of counter requests on an image reader returns exactly what the value-level run returns from a cleared table, so each stream's frames are numbered 1, 2, ..., n |
| `TimestampReaders.NumberHidFrames` | src/ds5.h:101-149 | after a reset, any run of counter requests on a HID reader returns exactly what the value-level run returns from a cleared table, so each sensor's frames are numbered 1, 2, ..., n |
| `TimestampReaders.FirstFramesNumbered` | src/ds5.h:38-80 | a caller that resets and then requests two counters on one stream gets 1 and 2 |
| `Ds5Info.SubdeviceCountOf` | src/ds5.h:160-171 | an answer exactly for the product IDs in `rs4xx_sku_pid`: 3 for the RS450T, 1 for the others; any other ID is a not-implemented error naming that ID |
| `Ds5Info.GetSubdeviceCount` | src/ds5.h:157-172 | the first depth interface's product ID decides: an answer exactly for known IDs, 3 for the RS450T and 1 for the other models, a not-implemented error naming the ID otherwise |
| `Ds5Info.SubdeviceCountPerSku` | src/ds5.h:160-166 | RS400P, RS410A, RS420R and RS430C have 1 sub-device, RS450T has 3 |
| `Ds5Info.SubdeviceCountTotalOnTable` | src/ds5.h:18 | a product ID gets an answer exactly when it belongs to a known model |
| `Ds5Info.PidsDistinct` | src/ds5.h:18 | no two models share a product ID |
| `EmitterOption.ValueDescription` | src/ds5.h:199-218 | a description exactly for 0, 1 and 2; any other value is an invalid-value error |
| `EmitterOption.DescribesEveryMode` | src/ds5.h:201-214 | 0, 1 and 2 are described as "Off", "On" and "Auto" |
| `EmitterOption.DescriptionOnlyForModes` | src/ds5.h:199-218 | a value is described exactly when it is the raw value of an emitter state, and then by that state's name |
| `EmitterOption.DescriptionsDistinct` | src/ds5.h:201-214 | different values get different descriptions |
| `EmitterOption.HelpTextAsWritten` | src/ds5.h:222 | the option's help text gives a meaning to each of the three values |
| `EmitterOption.HelpTextAsWrittenContradicts` | src/ds5.h:220-223 | the help text as written disagrees with the descriptions at value 1 |
| `EmitterOption.HelpText` | src/ds5.h:222 | the corrected help text gives each value 0, 1, 2 a meaning, in order |
| `EmitterOption.HelpTextAgrees` | src/ds5.h:220-223 | the corrected help text agrees with the descriptions and covers every valid value |

## Left out

- The `std::recursive_mutex` in each reader: it only serialises the operations, so every method is modelled as atomic.
- `TimestampReaders.HidTimestampReader.GetFrameTimestamp`: returns the integer before its conversion to `double`, which rounds values above 2^53.
- `EmitterOption.ValueDescription`: takes an integer; the truncating `float` to `int` cast in front of the switch is floating point and is not modelled.
- `TimestampReaders.ImageTimestampReader.GetFrameCounter`: requires the selected counter to be below 2^63 - 1, where the source's `int64_t` increment would overflow.
- `TimestampReaders.HidTimestampReader.GetFrameCounter`: the same precondition against `int64_t` overflow.
- `TimestampReaders.HidFrameTimestamp`, `TimestampReaders.HidTimestampReader.GetFrameTimestamp`: `width * height` is computed without wrap-around.
- `Ds5Info.GetSubdeviceCount`: requires at least one depth interface, since `front()` of an empty vector is undefined.
- The pixel-format collaborators `get_image_size` and `fourcc`: their values are parameters.
- The `frame` argument of `get_frame_counter` and the `mode` argument of the image reader's `get_frame_timestamp`: the source does not read them.
- The `started`, `total` and `last_timestamp` vectors are only ever cleared; the model keeps them with unbounded integers.
- `ds5_info::create`, `pick_ds5_devices`, the `ds5_camera` constructor, `create_hid_device`, `create_depth_device`, `send_receive_raw_data`, `get_intrinsics`, `is_camera_in_advanced_mode` and `get_raw_calibration_table`: only declared in this header; their bodies talk to the USB/HID backend and the hardware monitor and are not part of this model.
- `get_depth_endpoint`: a cast of the generic endpoint lookup, which is not part of this model.
- The `ds5_info` constructor stores the depth, hardware-monitor and HID interface lists; the model keeps only the depth product IDs, the one thing read here.
- The lazily filled calibration cache `_coefficients_table_raw`: its `lazy<>` type and fill logic are not part of this model, so the fetch-once behaviour of the calibration table is not modelled.
- The emitter option's link to the UVC extension unit (`depth_xu`, `DS5_DEPTH_EMITTER_ENABLED`): hardware I/O.

## Findings

| source | as written | input that shows it | evidently intended | confidence | as-written member | corrected member |
|---|---|---|---|---|---|---|
| src/ds5.h:222 | the emitter option's help text says "1 meaning projector off" | value 1, which `get_value_description` names "On" | "1 meaning projector on" | high; not executed | `EmitterOption.HelpTextAsWrittenContradicts` | `EmitterOption.HelpTextAgrees` |
