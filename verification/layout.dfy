/** Channel descriptors of `updateImage` and the strided buffer length they require. */
module Layout {
  import opened Wire

  /** The default channel names "R", "G", "B", "A" as bytes. */
  const DefaultNames: seq<seq<Byte>> := [[0x52], [0x47], [0x42], [0x41]]

  /** The default offsets 0, 1, 2, 3 (counted in floats). */
  const DefaultOffsets: seq<U64> := [0, 1, 2, 3]

  /** The default strides N, N, N, N (counted in floats), N being the channel count. */
  function DefaultStrides(n: U32): seq<U64>
  {
    [n, n, n, n]
  }

  /** `size_t pixelCount = width * height`: the product is taken in 32 bits. */
  function PixelCount(w: U32, h: U32): U32
  {
    (w * h) % Two32
  }

  /** `channelOffsets[i] + (pixelCount - 1) * channelStrides[i] + 1` in 64-bit unsigned arithmetic. */
  function Extent(offset: U64, stride: U64, pixelCount: U32): U64
  {
    (offset + ((pixelCount - 1) % Two64) * stride + 1) % Two64
  }

  /** The largest extent over the first `n` channels, 0 when there are none. */
  function MaxExtent(offsets: seq<U64>, strides: seq<U64>, pixelCount: U32, n: nat): U64
    requires n <= |offsets| && n <= |strides|
  {
    if n == 0 then 0
    else
      var m := MaxExtent(offsets, strides, pixelCount, n - 1);
      var e := Extent(offsets[n - 1], strides[n - 1], pixelCount);
      if m < e then e else m
  }

  /** The loop of `updateImage` that accumulates `stridedImageDataCount` with `std::max`. */
  method StridedDataCount(offsets: seq<U64>, strides: seq<U64>, w: U32, h: U32, n: U32) returns (r: U64)
    requires n <= |offsets| && n <= |strides|
    ensures r == MaxExtent(offsets, strides, PixelCount(w, h), n)
  {
    var pixelCount := PixelCount(w, h);
    r := 0;
    var i := 0;
    while i < n
      invariant 0 <= i <= n
      invariant r == MaxExtent(offsets, strides, pixelCount, i)
    {
      var e := Extent(offsets[i], strides[i], pixelCount);
      if r < e {
        r := e;
      }
      i := i + 1;
    }
  }

  /** `MaxExtent` is the maximum: no channel reaches past it and one channel reaches it. */
  lemma {:induction false} MaxExtentIsMaximum(offsets: seq<U64>, strides: seq<U64>, p: U32, n: nat)
    requires n <= |offsets| && n <= |strides|
    ensures forall i :: 0 <= i < n ==> Extent(offsets[i], strides[i], p) <= MaxExtent(offsets, strides, p, n)
    ensures n > 0 ==> exists i :: 0 <= i < n && MaxExtent(offsets, strides, p, n) == Extent(offsets[i], strides[i], p)
  {
    if n > 0 {
      MaxExtentIsMaximum(offsets, strides, p, n - 1);
    }
  }

  /** Without wrap-around, a channel's extent is one past the index of its last pixel's value. */
  lemma {:induction false} ExtentWithoutWrap(offset: U64, stride: U64, w: U32, h: U32)
    requires w > 0 && h > 0 && w * h < Two32
    requires offset + (w * h - 1) * stride + 1 < Two64
    ensures PixelCount(w, h) == w * h
    ensures Extent(offset, stride, PixelCount(w, h)) == offset + (w * h - 1) * stride + 1
  {
    assert 0 <= (w * h - 1) * stride;
  }

  /** Channel `i` of the default layout ends `n - 1 - i` floats before the tightly packed end. */
  lemma {:induction false} DefaultExtent(i: nat, n: U32, p: U32)
    requires i < n && p > 0 && p * n < Two64
    ensures Extent(i, n, p) == i + (p - 1) * n + 1 <= p * n
    ensures i == n - 1 ==> Extent(i, n, p) == p * n
  {
    var q := p - 1;
    assert q % Two64 == q;
    assert q * n + n == p * n by {
      assert p * n == (q + 1) * n;
    }
    var s := i + q * n + 1;
    assert 0 <= s <= p * n;
    assert s % Two64 == s;
  }

  /** With the default layout and no wrap-around, the required length is exactly `w * h * n`:
      the interleaved buffer a caller packs tightly. */
  lemma {:induction false} DefaultLayoutIsTight(w: U32, h: U32, n: U32)
    requires 1 <= n <= 4 && w > 0 && h > 0 && w * h < Two32
    requires w * h * n < Two64
    ensures MaxExtent(DefaultOffsets[..n], DefaultStrides(n)[..n], PixelCount(w, h), n) == w * h * n
  {
    var p: U32 := w * h;
    assert PixelCount(w, h) == p;
    var offsets, strides := DefaultOffsets[..n], DefaultStrides(n)[..n];
    MaxExtentIsMaximum(offsets, strides, p, n);
    var m := MaxExtent(offsets, strides, p, n);
    DefaultExtent(n - 1, n, p);
    assert offsets[n - 1] == n - 1 && strides[n - 1] == n;
    assert m >= p * n;
    var i :| 0 <= i < n && m == Extent(offsets[i], strides[i], p);
    assert offsets[i] == i && strides[i] == n;
    DefaultExtent(i, n, p);
  }

  /** An empty region is not rejected: `pixelCount - 1` wraps to 2^64 - 1, so one default channel
      requires 0 floats while two default channels require 2^64 - 1. */
  lemma {:induction false} EmptyRegionWraps(h: U32)
    ensures PixelCount(0, h) == 0
    ensures MaxExtent(DefaultOffsets[..1], DefaultStrides(1)[..1], 0, 1) == 0
    ensures MaxExtent(DefaultOffsets[..2], DefaultStrides(2)[..2], 0, 2) == Two64 - 1
  {
    assert Extent(0, 1, 0) == 0;
    assert Extent(0, 2, 0) == Two64 - 1;
    assert Extent(1, 2, 0) == 0;
  }

  /** The 32-bit product wraps: a 65536 x 65536 region counts as zero pixels. */
  lemma PixelCountWraps()
    ensures PixelCount(0x1_0000, 0x1_0000) == 0
  {
  }
}
