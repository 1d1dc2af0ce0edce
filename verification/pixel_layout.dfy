/**
 * Pixel-layout arithmetic of the raw image viewer: resolving a format tag
 * to a pixel format and row stride (`setConfig`) and sizing the input
 * buffer for a format and the image dimensions (`inputBufferSize`).
 * Widths and heights are the viewer's C++ `int` fields, so every product
 * the source forms must stay within 32 bits.
 */
module PixelLayout {
  import opened Wrappers
  import opened Int32

  /** The three pixel formats the viewer can configure. */
  datatype PixelFormat = RGB24 | NV21 | NV12 {

    /** NV12 and NV21: a full-resolution luma plane then an interleaved 4:2:0 chroma plane. */
    predicate IsSemiPlanar() {
      NV21? || NV12?
    }
  }

  /**
   * The viewer's 32-bit format field as `inputBufferSize` reads it: one of
   * the formats `setConfig` can write, or a value that is none of their
   * codes. When `setConfig` wrote nothing the field is uninitialised, and
   * `Other` stands for the case where it holds none of the three codes.
   */
  datatype FormatField = Known(format: PixelFormat) | Other

  /** What `setConfig` writes: the pixel format and the row stride in bytes. */
  datatype Layout = Layout(format: PixelFormat, stride: int)

  /** The command-line tag that names each format. */
  function Tag(f: PixelFormat): string {
    match f
    case RGB24 => "rgb24"
    case NV21 => "nv21"
    case NV12 => "nv12"
  }

  /** Bytes one pixel occupies in the first plane: packed RGB, or the luma byte. */
  function FirstPlaneBytesPerPixel(f: PixelFormat): nat {
    if f.IsSemiPlanar() then 1 else 3
  }

  predicate IsKnownTag(tag: string) {
    exists f: PixelFormat :: Tag(f) == tag
  }

  /**
   * `width` is an `int` and the product `setConfig` forms for `tag` does
   * not overflow: only the RGB24 branch multiplies the width.
   */
  predicate StrideFits(tag: string, width: int) {
    IsInt32(width) && (tag == Tag(RGB24) ==> IsInt32(width * 3))
  }

  /** The products `inputBufferSize` forms for the dimensions do not overflow. */
  predicate SizeFits(width: int, height: int) {
    IsInt32(width) && IsInt32(height) && IsInt32(width * height) && IsInt32(width * height * 3)
  }

  /**
   * `setConfig`: the tag selects the format whose tag it is and the stride
   * of that format's first plane; a tag that names no format selects
   * nothing (the source then leaves both fields unwritten).
   */
  function SetConfig(tag: string, width: int): (r: Option<Layout>)
    requires StrideFits(tag, width)
    ensures r.Some? <==> IsKnownTag(tag)
    ensures r.Some? ==> Tag(r.value.format) == tag
    ensures r.Some? ==> r.value.stride == width * FirstPlaneBytesPerPixel(r.value.format)
    ensures r.Some? ==> IsInt32(r.value.stride)
  {
    if tag == "rgb24" then
      assert Tag(RGB24) == tag;
      Some(Layout(RGB24, width * 3))
    else if tag == "nv21" then
      assert Tag(NV21) == tag;
      Some(Layout(NV21, width))
    else if tag == "nv12" then
      assert Tag(NV12) == tag;
      Some(Layout(NV12, width))
    else
      assert forall f: PixelFormat :: Tag(f) != tag;
      None
  }

  /** Each format is resolved from its own tag, and only from it. */
  lemma TagResolvesToFormat(f: PixelFormat, width: int)
    requires StrideFits(Tag(f), width)
    ensures SetConfig(Tag(f), width) == Some(Layout(f, width * FirstPlaneBytesPerPixel(f)))
    ensures forall g: PixelFormat :: Tag(g) == Tag(f) ==> g == f
  {
  }

  /**
   * `inputBufferSize`: three bytes per pixel for RGB24 and for any value of
   * the format field it does not recognise; for NV12/NV21 a luma plane of
   * one byte per pixel followed by a chroma plane half its size, the half
   * taken with C++'s truncating division.
   */
  function InputBufferSize(field: FormatField, width: int, height: int): (n: int)
    requires SizeFits(width, height)
    ensures IsInt32(n)
    ensures field.Known? && field.format.IsSemiPlanar() ==>
              n == width * height + TruncDiv(width * height, 2)
    ensures !(field.Known? && field.format.IsSemiPlanar()) ==>
              n == width * FirstPlaneBytesPerPixel(RGB24) * height
    ensures 0 <= width && 0 <= height ==> 0 <= n <= width * height * 3
  {
    if field == Known(RGB24) then
      width * height * 3
    else if field == Known(NV21) || field == Known(NV12) then
      TruncDiv(width * height * 3, 2)
    else
      width * height * 3
  }

  /** Truncating `3x / 2` splits into `x` plus the truncated half of `x`, for every sign of `x`. */
  lemma ThreeHalves(x: int)
    ensures TruncDiv(x * 3, 2) == x + TruncDiv(x, 2)
  {
  }

  /** For RGB24 the rows `setConfig` lays out cover the buffer exactly. */
  lemma RgbLayoutFillsBuffer(width: int, height: int)
    requires SizeFits(width, height) && StrideFits(Tag(RGB24), width)
    ensures SetConfig(Tag(RGB24), width).value.stride * height == InputBufferSize(Known(RGB24), width, height)
  {
  }

  /**
   * For NV12/NV21 and non-negative dimensions the luma plane `stride *
   * height` fits in the buffer and leaves room for a chroma plane of half
   * its size.
   */
  lemma SemiPlanarLumaFits(f: PixelFormat, width: int, height: int)
    requires f.IsSemiPlanar()
    requires SizeFits(width, height) && 0 <= width && 0 <= height
    ensures SetConfig(Tag(f), width).value.stride * height <= InputBufferSize(Known(f), width, height)
    ensures InputBufferSize(Known(f), width, height) - SetConfig(Tag(f), width).value.stride * height
            == (width * height) / 2
  {
  }

  /** For non-negative dimensions the NV12/NV21 buffer is never larger than the RGB24 one. */
  lemma SemiPlanarNoLargerThanRgb(f: PixelFormat, width: int, height: int)
    requires f.IsSemiPlanar()
    requires SizeFits(width, height) && 0 <= width && 0 <= height
    ensures InputBufferSize(Known(f), width, height) <= InputBufferSize(Known(RGB24), width, height)
  {
  }

  /** A format field holding no recognised value is sized like RGB24. */
  lemma UnrecognisedSizedAsRgb(width: int, height: int)
    requires SizeFits(width, height)
    ensures InputBufferSize(Other, width, height) == InputBufferSize(Known(RGB24), width, height)
  {
  }

  /**
   * With even dimensions the NV12/NV21 size is exactly the 4:2:0 layout:
   * one luma byte per pixel plus two interleaved chroma bytes per 2x2 block.
   */
  lemma SemiPlanarIs420(f: PixelFormat, width: int, height: int)
    requires f.IsSemiPlanar()
    requires SizeFits(width, height) && 0 <= width && 0 <= height
    requires width % 2 == 0 && height % 2 == 0
    ensures InputBufferSize(Known(f), width, height) == width * height + 2 * ((width / 2) * (height / 2))
  {
  }

  /**
   * With an odd dimension the NV12/NV21 size falls short of the 4:2:0
   * layout, whose chroma plane rounds each odd dimension up to a whole 2x2
   * block: one luma byte per pixel plus two chroma bytes per block.
   */
  lemma SemiPlanarOddUndersized(f: PixelFormat, width: int, height: int)
    requires f.IsSemiPlanar()
    requires SizeFits(width, height) && HasOddDimension(width, height)
    ensures InputBufferSize(Known(f), width, height) < Layout420Bytes(width, height)
  {
    Layout420Exceeds(width, height);
  }

  /** A non-empty image with an odd width or an odd height. */
  predicate HasOddDimension(width: int, height: int) {
    0 < width && 0 < height && (width % 2 == 1 || height % 2 == 1)
  }

  /**
   * The bytes a 4:2:0 semi-planar image of the given dimensions occupies:
   * the luma plane, then two interleaved chroma bytes for every 2x2 block,
   * a block at an odd edge counting whole.
   */
  function Layout420Bytes(width: nat, height: nat): nat {
    width * height + 2 * (((width + 1) / 2) * ((height + 1) / 2))
  }

  /** Four chroma bytes per block cover at least the pixels, strictly more with an odd dimension. */
  lemma Layout420Exceeds(width: nat, height: nat)
    ensures 4 * (((width + 1) / 2) * ((height + 1) / 2)) >= width * height
    ensures HasOddDimension(width, height) ==>
              4 * (((width + 1) / 2) * ((height + 1) / 2)) > width * height
  {
    var cw, ch := (width + 1) / 2, (height + 1) / 2;
    assert 4 * (cw * ch) == (2 * cw) * (2 * ch);
    MulMonotone(width, 2 * cw, height, 2 * ch);
    if 0 < width && 0 < height {
      if width % 2 == 1 {
        MulMonotone(width + 1, 2 * cw, height, 2 * ch);
        assert (width + 1) * height == width * height + height;
      } else if height % 2 == 1 {
        MulMonotone(width, 2 * cw, height + 1, 2 * ch);
        assert width * (height + 1) == width * height + width;
      }
    }
  }

  /** Multiplication of naturals is monotone in both factors. */
  lemma MulMonotone(a: nat, a': nat, b: nat, b': nat)
    requires a <= a' && b <= b'
    ensures a * b <= a' * b'
  {
  }

  /** The 4:2:0 size compared with the NV12/NV21 size the viewer computes. */
  lemma Layout420VersusInputSize(f: PixelFormat, width: int, height: int)
    requires f.IsSemiPlanar()
    requires SizeFits(width, height) && 0 <= width && 0 <= height
    ensures Layout420Bytes(width, height) >= InputBufferSize(Known(f), width, height)
    ensures width % 2 == 0 && height % 2 == 0 ==>
              Layout420Bytes(width, height) == InputBufferSize(Known(f), width, height)
  {
    var p, c := width * height, ((width + 1) / 2) * ((height + 1) / 2);
    Layout420Exceeds(width, height);
    assert InputBufferSize(Known(f), width, height) == p + p / 2;
    assert Layout420Bytes(width, height) == p + 2 * c;
    if width % 2 == 0 && height % 2 == 0 {
      SemiPlanarIs420(f, width, height);
    }
  }

  /**
   * `inputBufferSize` with the NV12/NV21 size taken from the 4:2:0 layout
   * instead: it holds the whole 4:2:0 layout, is never smaller than the
   * size the viewer computes, and is larger exactly where an NV12/NV21
   * image has an odd dimension.
   */
  function CorrectedBufferSize(field: FormatField, width: int, height: int): (n: int)
    requires SizeFits(width, height) && 0 <= width && 0 <= height
    ensures field.Known? && field.format.IsSemiPlanar() ==> n == Layout420Bytes(width, height)
    ensures n > InputBufferSize(field, width, height) ==>
              field.Known? && field.format.IsSemiPlanar() && HasOddDimension(width, height)
    ensures n >= InputBufferSize(field, width, height)
    ensures width % 2 == 0 && height % 2 == 0 ==> n == InputBufferSize(field, width, height)
    ensures field.Known? && field.format.IsSemiPlanar() && HasOddDimension(width, height) ==>
              n > InputBufferSize(field, width, height)
    ensures !(field.Known? && field.format.IsSemiPlanar()) ==> n == InputBufferSize(field, width, height)
  {
    if field.Known? && field.format.IsSemiPlanar() then
      Layout420VersusInputSize(field.format, width, height);
      assert HasOddDimension(width, height) ==>
               InputBufferSize(field, width, height) < Layout420Bytes(width, height) by {
        if HasOddDimension(width, height) {
          SemiPlanarOddUndersized(field.format, width, height);
        }
      }
      Layout420Bytes(width, height)
    else
      width * height * 3
  }

  /** A 3x3 NV12 image: the viewer sizes 13 bytes where the 4:2:0 layout takes 17. */
  lemma OddNv12Example()
    ensures InputBufferSize(Known(NV12), 3, 3) == 13
    ensures CorrectedBufferSize(Known(NV12), 3, 3) == 17
  {
  }
}
