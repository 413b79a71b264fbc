/** The frame sanity gate both timestamp readers run: does the image hold any non-zero byte? */
module FrameValidator {
  import opened Bytes

  /** Some byte of `bytes` is non-zero. */
  predicate HasNonzeroByte(bytes: seq<byte>)
  {
    exists i :: 0 <= i < |bytes| && bytes[i] != 0
  }

  /** Walks the first `imageSize` bytes of `frame` in order and stops at the first non-zero
      one. The caller guarantees the buffer holds `imageSize` bytes. */
  method ValidateFrame(frame: seq<byte>, imageSize: nat) returns (valid: bool)
    requires imageSize <= |frame|
    ensures valid <==> exists i :: 0 <= i < imageSize && frame[i] != 0
    ensures valid == HasNonzeroByte(frame[..imageSize])
  {
    for i := 0 to imageSize
      invariant forall j :: 0 <= j < i ==> frame[j] == 0
    {
      if frame[i] != 0 {
        return true;
      }
    }
    return false;
  }

  /** An all-zero image, the empty one included, is never valid. */
  lemma ZeroImageInvalid(frame: seq<byte>, imageSize: nat)
    requires imageSize <= |frame|
    requires forall i :: 0 <= i < imageSize ==> frame[i] == 0
    ensures !HasNonzeroByte(frame[..imageSize])
  {
  }

  /** Only the first `imageSize` bytes are looked at: what follows them does not matter. */
  lemma {:induction false} TrailingBytesIgnored(frame: seq<byte>, tail: seq<byte>, imageSize: nat)
    requires imageSize <= |frame|
    ensures HasNonzeroByte((frame + tail)[..imageSize]) == HasNonzeroByte(frame[..imageSize])
  {
    assert (frame + tail)[..imageSize] == frame[..imageSize];
  }
}
