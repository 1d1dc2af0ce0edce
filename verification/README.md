# RawImageViewer pixel layout and quit decision, in Dafny

RawImageViewer is a small SDL program that shows one raw, headerless image
file in a window. It takes a file, a format tag (`rgb24`, `nv21` or
`nv12`), a width and a height. Its own logic, apart from the SDL calls, is:

- **Format resolution** (`setConfig`). The tag selects an SDL pixel format and a row stride.
- **Buffer sizing** (`inputBufferSize`). The format and the dimensions give the number of bytes read from the file.
- **The quit decision** (`eventHandle` and the loop in `main`). Pending events are polled until a window-close or a key press ends the session.

This project models these pieces as pure functions and proves what they
promise.

- `int32.dfy` (`Int32`): 32-bit `int` bounds and C++'s truncating division.
- `pixel_layout.dfy` (`PixelLayout`): pixel formats, `SetConfig` and `InputBufferSize`, and lemmas showing that the layouts fit their buffers.
- `events.dfy` (`Events`): the event queue as a `seq<Event>`, `EventHandle` as the reference definition, `PollEvents` as the polling loop, the Ready/Closed lifecycle and the driver loop `Drive`.
- `viewer.dfy` (`Viewer`): the configuration the constructor settles on, and the zero-filled buffer that `main` reads the file into.
- `wrappers.dfy` (`Wrappers`): `Option`.

Modelling decisions:

- **Unknown tags.** An unrecognised tag matches no branch of `setConfig`, so the format and stride fields are never written. `SetConfig` returns `None` in that case. `InputBufferSize` reads the format field as `FormatField`, which is `Known(f)` or `Other`. An unwritten field is uninitialised, and reading it is undefined behaviour in C++. `Other` covers only the case where that value is none of the three format codes, which `inputBufferSize` sizes at three bytes per pixel. The uninitialised read is logged under "## Findings", and `Viewer.Construct` is the constructor that rejects the tag instead.
- **Overflow.** In C++, overflow of `int` arithmetic is undefined. Every product the source forms therefore carries a precondition that it fits in 32 bits. `StrideFits` covers `setConfig`, where only the RGB24 branch forms `width*3`. `SizeFits` covers `inputBufferSize`.
- **Division.** C++ `/` rounds toward zero. `Int32.TruncDiv` models this, so the NV12/NV21 size is also right for negative products.
- **Key presses.** `eventHandle` stops on `SDL_KEYDOWN` for any key, not only Escape, and the model follows that code. Its other exit is `SDL_QUIT`, which it also stops on. When it returns false it has called `SDL_Quit`. That call is the `Closed` stage.
- **The driver loop.** `while (viewer.eventHandle());` spins forever if no stop event ever arrives. `Drive` takes a finite sequence of batches, one per poll. Each batch is the queue as that poll finds it. If none of them holds a stop event, `Drive` reports the session still `Ready`.

## Model

| member | source | states |
|---|---|---|
| Int32.TruncDiv | RawViewer.cpp:71 | the quotient rounds toward zero: for a non-negative dividend it is the floor of the exact quotient, and for a negative dividend it is the ceiling |
| PixelLayout.SetConfig | RawViewer.cpp:77-88 | a layout is produced exactly when the tag is one of the three formats' tags. The format produced is the one whose tag it is. The stride is width times the first plane's bytes per pixel: 3 for RGB24, 1 for NV12/NV21. The stride fits in an `int` |
| PixelLayout.TagResolvesToFormat | RawViewer.cpp:78-86 | resolving each format's tag yields that format and its stride, and no two formats share a tag |
| PixelLayout.InputBufferSize | RawViewer.cpp:65-74 | the size fits in an `int`. For NV12/NV21 it is a luma plane of `width*height` bytes plus a chroma plane of half that, halved by truncating division. For RGB24 and any unrecognised format value it is rows of `width*3` bytes times `height`. For non-negative dimensions it lies between 0 and `width*height*3` |
| PixelLayout.ThreeHalves | RawViewer.cpp:71 | truncating `3x/2` equals `x` plus the truncated half of `x`, for negative `x` as well |
| PixelLayout.RgbLayoutFillsBuffer | RawViewer.cpp:66-80 | the RGB24 stride times the height is exactly the RGB24 buffer size |
| PixelLayout.SemiPlanarLumaFits | RawViewer.cpp:69-86 | for NV12/NV21 and non-negative dimensions, the luma plane (stride times height) fits in the buffer, and what remains is exactly half the pixel count, rounded down |
| PixelLayout.SemiPlanarNoLargerThanRgb | RawViewer.cpp:66-71 | for non-negative dimensions, the NV12/NV21 buffer is never larger than the RGB24 buffer |
| PixelLayout.UnrecognisedSizedAsRgb | RawViewer.cpp:73 | a format value outside the three known ones is sized exactly like RGB24 |
| PixelLayout.SemiPlanarIs420 | RawViewer.cpp:69-71 | with even non-negative dimensions, the NV12/NV21 size is one luma byte per pixel plus two chroma bytes per 2x2 block |
| PixelLayout.SemiPlanarOddUndersized | RawViewer.cpp:69-71 | for non-empty dimensions with an odd width or height, the NV12/NV21 size is strictly smaller than a 4:2:0 layout needs. That layout counts a 2x2 block at an odd edge whole |
| PixelLayout.Layout420VersusInputSize | RawViewer.cpp:69-71 | for non-negative dimensions, the 4:2:0 layout size is at least the NV12/NV21 size the viewer computes, and equal to it for even dimensions |
| PixelLayout.CorrectedBufferSize | RawViewer.cpp:65-74 | the buffer size with the NV12/NV21 case sized by the 4:2:0 layout: for NV12/NV21 it is exactly the 4:2:0 byte count (luma plus two chroma bytes per 2x2 block, odd edges rounded up). It is never smaller than the viewer's size and equals it for even dimensions and for every other format. It exceeds the viewer's size if and only if the image is NV12/NV21 with non-empty dimensions, one of them odd |
| PixelLayout.OddNv12Example | RawViewer.cpp:71 | a 3x3 NV12 image gets 13 bytes, where the 4:2:0 layout takes 17 |
| Events.EventHandle | RawViewer.cpp:46-55 | it returns true exactly when the queue holds no quit or key-down event, and then the queue is empty. Otherwise it returns false, having taken everything up to and including the first such event and no event after it. The untaken events are exactly those after the first stop event |
| Events.PollEvents | RawViewer.cpp:47-54 | the loop that takes one event per `SDL_PollEvent` returns the same decision and leaves the same remaining queue as `EventHandle`, for every queue |
| Events.Step | RawViewer.cpp:49-51 | after a poll, the session is closed (`SDL_Quit` called) exactly when it was already closed or the queue held a stop event |
| Events.Drive | RawViewer.cpp:121-122 | the loop closes the session exactly when some batch holds a stop event. The closing poll is the first batch with a stop event, and the polls before it saw none. A session that never closes has polled every batch |
| Events.DriveIgnoresLaterBatches | RawViewer.cpp:121-122 | once some batch holds a stop event, events that would arrive after it do not change the loop's outcome |
| Viewer.Configure | RawViewer.cpp:18-39 | the viewer stores the dimensions. Its format field is set exactly when the tag is known, and then it holds the tag's format and the matching stride. For an unknown tag the stride stays unwritten |
| Viewer.UnknownTagBufferIsPacked | RawViewer.cpp:65-88 | for a tag that names no format, the stride is never written. When the unwritten format field holds none of the three codes, the buffer is `width*3*height` bytes |
| Viewer.Construct | RawViewer.cpp:77-88 | the constructor as evidently intended: it succeeds exactly for the three tags, and then both the format and the stride are set as `setConfig` sets them. Otherwise it fails |
| Viewer.KnownTagLayoutFits | RawViewer.cpp:65-88 | for a known tag and non-negative dimensions, the configured stride times the height fits in the buffer, exactly so for `rgb24` |
| Viewer.LoadBuffer | RawViewer.cpp:112-117 | a buffer exists exactly when the size is non-negative, and it has exactly that many bytes. It starts with the file's bytes as far as both extend and is zero past the end of the file |

## Left out

- SDL initialisation and the creation of the window, renderer and texture (RawViewer.cpp:19-43): these are foreign calls returning opaque handles. The no-op deleters attached to them are a resource-lifetime detail that has no observable behaviour in the model.
- `render` (RawViewer.cpp:57-63): it only forwards the buffer and stride to SDL. It does not check the buffer's length, so there is no rejection of a wrong-sized buffer to model.
- Argument parsing in `main` (`argc` check, `std::stoi`) and opening the file (RawViewer.cpp:100-116): this is command-line and I/O plumbing. The file's bytes are a parameter of `LoadBuffer`, and a file that cannot be opened is not modelled.
- The pixel semantics of NV12/NV21 (plane order, chroma order): the program never interprets pixels. It only sizes buffers.
- Timing and busy-waiting of the driver loop: the loop is single-threaded. Only its quit decision is modelled.
- Viewer.UnknownTagBufferIsPacked: `Other` covers only an uninitialised format field whose value is none of the three format codes. The C++ read is undefined and may see any value, including one of the codes.
- Viewer.LoadBuffer: assumes the text-mode `std::ifstream` passes bytes through unchanged, as it does on POSIX systems. Where text mode translates line endings or stops at Ctrl-Z, the buffer holds different bytes.
- Events.Drive: models a finite run of polls. A run in which no stop event ever arrives does not terminate in the program.

## Findings

| source | as written | input that shows it | evidently intended | confidence | as-written member | corrected member |
|---|---|---|---|---|---|---|
| RawViewer.cpp:69-71 | the NV12/NV21 buffer is `(w*h*3)/2` bytes, which rounds the chroma plane down for odd dimensions | nv12, 3x3: 13 bytes, while a 4:2:0 texture of that size takes 9 luma bytes plus 2 chroma bytes for each of 4 blocks, 17 in all | `w*h + 2*ceil(w/2)*ceil(h/2)` bytes, so that uploading the texture at line 60 stays inside the buffer | medium, not executed | PixelLayout.SemiPlanarOddUndersized | PixelLayout.CorrectedBufferSize |
| RawViewer.cpp:77-92 | an unknown tag writes neither `mFormat` nor `mStride`, and the constructor goes on. The uninitialised fields are then read at lines 41, 60 and 66-69 | tag `yuv420` | construction fails with an unsupported-format error | high, not executed | Viewer.UnknownTagBufferIsPacked | Viewer.Construct |
