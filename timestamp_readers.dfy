/** The two per-stream frame timestamp/counter readers: `ds5_timestamp_reader` for image
    streams and `ds5_hid_timestamp_reader` for motion (HID) streams. Each owns one channel
    table; its lock only serialises the operations, so every method here is atomic. */
module TimestampReaders {
  import opened Bytes
  import opened Channels
  import FrameValidator

  /** Four-character code of the Z16 depth format. */
  const Z16Fourcc: uint32 := 0x5a313620

  /** The multi-character literal 'GYRO', as GCC, Clang and MSVC pack it (the C++ standard
      leaves its value to the implementation). */
  const GyroFourcc: uint32 := 0x4759524F

  /** Byte length of one HID motion record, and where its timestamp starts. */
  const HidDataSize := 14
  const TimestampOffset := 6
  const TimestampWidth := 8

  /** Image streams: Z16 counts on channel 1, every other format on channel 0. */
  function ImageChannel(fourcc: uint32): (i: ChannelIndex)
    ensures i == 1 <==> fourcc == Z16Fourcc
    ensures i == 0 <==> fourcc != Z16Fourcc
  {
    if fourcc == Z16Fourcc then 1 else 0
  }

  /** Motion streams: the gyroscope counts on channel 1, every other sensor on channel 0. */
  function HidChannel(fourcc: uint32): (i: ChannelIndex)
    ensures i == 1 <==> fourcc == GyroFourcc
    ensures i == 0 <==> fourcc != GyroFourcc
  {
    if fourcc == GyroFourcc then 1 else 0
  }

  /** The timestamp of a HID frame: a record of exactly `HidDataSize` elements carries an
      unsigned 64-bit value at byte `TimestampOffset` (read little-endian); any other frame
      size gives 0. */
  function HidFrameTimestamp(width: nat, height: nat, frame: seq<byte>): (ts: nat)
    requires width * height == HidDataSize ==> |frame| >= HidDataSize
    ensures ts < Uint64Limit
    ensures width * height != HidDataSize ==> ts == 0
  {
    Pow256Of8();
    if width * height == HidDataSize
    then DecodeLE(frame[TimestampOffset..TimestampOffset + TimestampWidth])
    else 0
  }

  /** A motion record whose bytes 6..13 hold `stamp` yields exactly `stamp`, whatever its
      first six bytes. */
  lemma {:induction false} HidTimestampRecoversStamp(header: seq<byte>, stamp: nat, width: nat, height: nat)
    requires |header| == TimestampOffset && stamp < Uint64Limit
    requires width * height == HidDataSize
    ensures Pow256(TimestampWidth) == Uint64Limit
    ensures HidFrameTimestamp(width, height, header + EncodeLE(stamp, TimestampWidth)) == stamp
  {
    Pow256Of8();
    var frame := header + EncodeLE(stamp, TimestampWidth);
    assert frame[TimestampOffset..TimestampOffset + TimestampWidth] == EncodeLE(stamp, TimestampWidth);
  }

  /** The timestamp depends on bytes 6..13 only: nothing before them and nothing past byte 13
      is read. */
  lemma {:induction false} HidTimestampReadsOnlyStampBytes(width: nat, height: nat, f: seq<byte>, g: seq<byte>)
    requires width * height == HidDataSize
    requires |f| >= HidDataSize && |g| >= HidDataSize
    requires f[TimestampOffset..HidDataSize] == g[TimestampOffset..HidDataSize]
    ensures HidFrameTimestamp(width, height, f) == HidFrameTimestamp(width, height, g)
  {
    assert f[TimestampOffset..TimestampOffset + TimestampWidth] == f[TimestampOffset..HidDataSize];
    assert g[TimestampOffset..TimestampOffset + TimestampWidth] == g[TimestampOffset..HidDataSize];
  }

  /** Distinct stamps in well-sized records give distinct timestamps. */
  lemma {:induction false} HidTimestampDistinguishesStamps(width: nat, height: nat, f: seq<byte>, g: seq<byte>)
    requires width * height == HidDataSize
    requires |f| >= HidDataSize && |g| >= HidDataSize
    requires HidFrameTimestamp(width, height, f) == HidFrameTimestamp(width, height, g)
    ensures f[TimestampOffset..HidDataSize] == g[TimestampOffset..HidDataSize]
  {
    DecodeLEInjective(f[TimestampOffset..TimestampOffset + TimestampWidth],
                      g[TimestampOffset..TimestampOffset + TimestampWidth]);
  }

  class ImageTimestampReader {
    const table: ChannelTable

    ghost predicate Valid()
      reads this, table, table.Repr
    {
      table.Valid()
    }

    ghost function Channels(): (cs: seq<Channel>)
      reads this, table, table.Repr
      requires Valid()
    {
      table.Channels()
    }

    /** Two channels, reset. */
    constructor ()
      ensures Valid() && fresh(table) && fresh(table.Repr)
      ensures Channels() == Cleared()
    {
      table := new ChannelTable();
    }

    /** Clears every channel. Calling it again leaves the same state. */
    method Reset()
      requires Valid()
      modifies table.Repr
      ensures Valid()
      ensures Channels() == Cleared()
    {
      table.Reset();
    }

    /** Is any of the `imageSize` bytes of the image non-zero? Changes nothing. */
    method ValidateFrame(frame: seq<byte>, imageSize: nat) returns (valid: bool)
      requires Valid()
      requires imageSize <= |frame|
      ensures valid <==> exists i :: 0 <= i < imageSize && frame[i] != 0
    {
      valid := FrameValidator.ValidateFrame(frame, imageSize);
    }

    /** Image timestamps are not generated yet: always 0, and no state changes. */
    method GetFrameTimestamp(frame: seq<byte>) returns (ts: int)
      requires Valid()
      ensures ts == 0
    {
      ts := 0;
    }

    /** Bumps the counter of the channel the format selects and returns its new value;
        every other entry of the table keeps its value. */
    method GetFrameCounter(fourcc: uint32) returns (n: nat)
      requires Valid()
      requires Channels()[ImageChannel(fourcc)].counter < MaxCounter
      modifies table.counter
      ensures Valid()
      ensures Channels() == Advance(old(Channels()), ImageChannel(fourcc))
      ensures n == old(Channels())[ImageChannel(fourcc)].counter + 1
    {
      var pinIndex := 0;
      if fourcc == Z16Fourcc {
        pinIndex := 1;
      }
      n := table.Increment(pinIndex);
    }
  }

  class HidTimestampReader {
    const table: ChannelTable

    ghost predicate Valid()
      reads this, table, table.Repr
    {
      table.Valid()
    }

    ghost function Channels(): (cs: seq<Channel>)
      reads this, table, table.Repr
      requires Valid()
    {
      table.Channels()
    }

    /** Two channels, reset. */
    constructor ()
      ensures Valid() && fresh(table) && fresh(table.Repr)
      ensures Channels() == Cleared()
    {
      table := new ChannelTable();
    }

    /** Clears every channel. Calling it again leaves the same state. */
    method Reset()
      requires Valid()
      modifies table.Repr
      ensures Valid()
      ensures Channels() == Cleared()
    {
      table.Reset();
    }

    /** Is any of the `imageSize` bytes of the frame non-zero? Changes nothing. */
    method ValidateFrame(frame: seq<byte>, imageSize: nat) returns (valid: bool)
      requires Valid()
      requires imageSize <= |frame|
      ensures valid <==> exists i :: 0 <= i < imageSize && frame[i] != 0
    {
      valid := FrameValidator.ValidateFrame(frame, imageSize);
    }

    /** The timestamp a motion record carries, or 0 for a frame of any other size; no
        state changes. */
    method GetFrameTimestamp(width: nat, height: nat, frame: seq<byte>) returns (ts: nat)
      requires Valid()
      requires width * height == HidDataSize ==> |frame| >= HidDataSize
      ensures ts < Uint64Limit
      ensures width * height != HidDataSize ==> ts == 0
      ensures width * height == HidDataSize ==> ts == DecodeLE(frame[TimestampOffset..HidDataSize])
      ensures ts == HidFrameTimestamp(width, height, frame)
    {
      ts := HidFrameTimestamp(width, height, frame);
    }

    /** Bumps the counter of the channel the sensor selects and returns its new value;
        every other entry of the table keeps its value. */
    method GetFrameCounter(fourcc: uint32) returns (n: nat)
      requires Valid()
      requires Channels()[HidChannel(fourcc)].counter < MaxCounter
      modifies table.counter
      ensures Valid()
      ensures Channels() == Advance(old(Channels()), HidChannel(fourcc))
      ensures n == old(Channels())[HidChannel(fourcc)].counter + 1
    {
      var index := 0;
      if fourcc == GyroFourcc {
        index := 1;
      }
      n := table.Increment(index);
    }
  }

  /** A capture thread numbering a run of frames, the k-th of format `fourccs[k]`, right
      after a reset: the reader returns what the value-level run returns, so by
      `ChannelSeesOneToN` each stream's frames are numbered 1, 2, ..., n. */
  method NumberImageFrames(reader: ImageTimestampReader, fourccs: seq<uint32>) returns (values: seq<int>)
    requires reader.Valid()
    requires |fourccs| < MaxCounter
    modifies reader.table.Repr
    ensures reader.Valid()
    ensures values == Returned(Cleared(), ImageChannels(fourccs))
    ensures reader.Channels() == AfterCalls(Cleared(), ImageChannels(fourccs))
  {
    reader.Reset();
    ghost var calls := ImageChannels(fourccs);
    values := [];
    for i := 0 to |fourccs|
      invariant reader.Valid()
      invariant reader.Channels() == AfterCalls(Cleared(), calls[..i])
      invariant values == Returned(Cleared(), calls[..i])
    {
      assert calls[..i + 1][..i] == calls[..i];
      CounterTalliesCalls(Cleared(), calls[..i], calls[i]);
      CountAtMostLength(calls[..i], calls[i]);
      var n := reader.GetFrameCounter(fourccs[i]);
      values := values + [n];
    }
    assert calls[..|fourccs|] == calls;
  }

  /** The same for a HID reader, with the k-th frame from sensor `fourccs[k]`. */
  method NumberHidFrames(reader: HidTimestampReader, fourccs: seq<uint32>) returns (values: seq<int>)
    requires reader.Valid()
    requires |fourccs| < MaxCounter
    modifies reader.table.Repr
    ensures reader.Valid()
    ensures values == Returned(Cleared(), HidChannels(fourccs))
    ensures reader.Channels() == AfterCalls(Cleared(), HidChannels(fourccs))
  {
    reader.Reset();
    ghost var calls := HidChannels(fourccs);
    values := [];
    for i := 0 to |fourccs|
      invariant reader.Valid()
      invariant reader.Channels() == AfterCalls(Cleared(), calls[..i])
      invariant values == Returned(Cleared(), calls[..i])
    {
      assert calls[..i + 1][..i] == calls[..i];
      CounterTalliesCalls(Cleared(), calls[..i], calls[i]);
      CountAtMostLength(calls[..i], calls[i]);
      var n := reader.GetFrameCounter(fourccs[i]);
      values := values + [n];
    }
    assert calls[..|fourccs|] == calls;
  }

  /** The channel each image format selects. */
  function ImageChannels(fourccs: seq<uint32>): (calls: seq<ChannelIndex>)
    ensures |calls| == |fourccs|
    ensures forall k :: 0 <= k < |fourccs| ==> calls[k] == ImageChannel(fourccs[k])
  {
    seq(|fourccs|, k requires 0 <= k < |fourccs| => ImageChannel(fourccs[k]))
  }

  /** The channel each motion sensor selects. */
  function HidChannels(fourccs: seq<uint32>): (calls: seq<ChannelIndex>)
    ensures |calls| == |fourccs|
    ensures forall k :: 0 <= k < |fourccs| ==> calls[k] == HidChannel(fourccs[k])
  {
    seq(|fourccs|, k requires 0 <= k < |fourccs| => HidChannel(fourccs[k]))
  }

  /** A capture thread's view: right after a reset, the first frame on either stream of an
      image reader is numbered 1, and a second frame on the same stream 2. */
  method FirstFramesNumbered(reader: ImageTimestampReader, fourcc: uint32) returns (first: nat, second: nat)
    requires reader.Valid()
    modifies reader.table.Repr
    ensures reader.Valid()
    ensures first == 1 && second == 2
  {
    reader.Reset();
    first := reader.GetFrameCounter(fourcc);
    second := reader.GetFrameCounter(fourcc);
  }
}
