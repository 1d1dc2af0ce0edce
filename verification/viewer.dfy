/**
 * The viewer as the program's entry point uses it, with SDL left out: the
 * configuration the constructor settles on, the zero-filled input buffer
 * it sizes, and the file contents read into that buffer.
 */
module Viewer {
  import opened Wrappers
  import opened Int32
  import opened PixelLayout

  newtype byte = x: int | 0 <= x < 256

  /**
   * The fields of a constructed viewer that its logic reads: the
   * dimensions, the format field and the stride, the last of which stays
   * unwritten (None) when the tag names no format.
   */
  datatype ViewerState = ViewerState(width: int, height: int, format: FormatField, stride: Option<int>)

  /** The constructor's configuration step: store the dimensions and run `setConfig`. */
  function Configure(tag: string, width: int, height: int): (v: ViewerState)
    requires IsInt32(height) && StrideFits(tag, width)
    ensures v.width == width && v.height == height
    ensures v.format.Known? <==> IsKnownTag(tag)
    ensures v.stride.Some? <==> v.format.Known?
    ensures v.format.Known? ==> Tag(v.format.format) == tag
    ensures v.format.Known? ==> v.stride.value == width * FirstPlaneBytesPerPixel(v.format.format)
  {
    match SetConfig(tag, width)
    case Some(layout) => ViewerState(width, height, Known(layout.format), Some(layout.stride))
    case None => ViewerState(width, height, Other, None)
  }

  /**
   * The constructor as evidently intended: a tag that names no format is
   * rejected (None) instead of leaving the format and stride unwritten, so
   * every viewer it builds has both fields set, exactly as `Configure` sets
   * them for a known tag.
   */
  function Construct(tag: string, width: int, height: int): (r: Option<ViewerState>)
    requires IsInt32(height) && StrideFits(tag, width)
    ensures r.Some? <==> IsKnownTag(tag)
    ensures r.Some? ==> r.value.format.Known? && r.value.stride.Some?
    ensures r.Some? ==> r.value == Configure(tag, width, height)
  {
    var v := Configure(tag, width, height);
    if v.format.Known? then Some(v) else None
  }

  /**
   * A tag that names no format leaves the format and stride unwritten; when
   * the unwritten format field holds none of the three format codes,
   * `inputBufferSize()` sizes the buffer at three bytes per pixel.
   */
  lemma UnknownTagBufferIsPacked(tag: string, width: int, height: int)
    requires SizeFits(width, height)
    requires !IsKnownTag(tag)
    ensures Configure(tag, width, height).stride.None?
    ensures InputBufferSize(Configure(tag, width, height).format, width, height) == width * 3 * height
  {
  }

  /**
   * A tag that names a format gives a layout whose first plane fits the
   * buffer for non-negative dimensions, exactly for RGB24.
   */
  lemma KnownTagLayoutFits(tag: string, width: int, height: int)
    requires SizeFits(width, height) && 0 <= width && 0 <= height
    requires StrideFits(tag, width)
    requires IsKnownTag(tag)
    ensures Configure(tag, width, height).stride.value * height <= InputBufferSize(Configure(tag, width, height).format, width, height)
    ensures tag == Tag(RGB24) ==>
              Configure(tag, width, height).stride.value * height == InputBufferSize(Configure(tag, width, height).format, width, height)
  {
  }

  /**
   * `std::vector<char> buffer(size, 0)` followed by `ifs.read(buffer.data(),
   * buffer.size())`: a buffer of exactly `size` bytes, starting with as much
   * of the file as fits and zero where the file ran short. A negative size
   * converts to a length the vector cannot hold, so construction fails.
   */
  function LoadBuffer(file: seq<byte>, size: int): (r: Option<seq<byte>>)
    ensures r.Some? <==> 0 <= size
    ensures r.Some? ==> |r.value| == size
    ensures r.Some? ==> forall i :: 0 <= i < size && i < |file| ==> r.value[i] == file[i]
    ensures r.Some? ==> forall i :: |file| <= i < size ==> r.value[i] == 0
  {
    if size < 0 then None
    else if size <= |file| then Some(file[..size])
    else Some(file + seq(size - |file|, _ => 0))
  }
}
