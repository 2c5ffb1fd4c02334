# HTMLCanvasElement surface management, modelled in Dafny

This project models the surface management core of WebKit's canvas element
(Android build): `HTMLCanvasElement` in
`platform/external/webkit/Source/WebCore/html/HTMLCanvasElement.cpp`. The
element owns:

- a logical size (300x150 by default, reset from the `width` and `height`
  attributes);
- at most one rendering context, 2D or WebGL. Once bound, it is never replaced;
- a lazily created image buffer, whose device size is validated against an
  area cap and, on Skia, a per-side cap;
- a cached copy of that buffer and a "presented" copy;
- a dirty rectangle that accumulates drawing damage until the next paint;
- a set of observers that are told when the canvas is resized, changed or
  destroyed.

The model has three modules:

- `Geometry` (`geometry.dfy`): integer sizes and rectangles with the semantics
  of WebCore's `IntSize`/`FloatRect`, and `clampToInteger`. It also holds the
  logical-to-device conversions. The page scale factor is 1, as the Android
  constructor sets it.
- `CanvasSpec` (`canvas_spec.dfy`): the element's rules as pure functions,
  with lemmas about them. These cover reset sizing, the context state machine,
  lazy buffer creation, dirty-rect accumulation, the MIME type fallback of
  `toDataURL`, and one-notice-per-observer delivery.
- `HtmlCanvas` (`canvas.dfy`): the element itself as a class. It has the
  element's fields, and its methods change them in place as the C++ methods
  do. Each method's postcondition ties the new state to the `CanvasSpec`
  functions. The object invariant `Valid()` holds throughout:
  - a buffer exists only after a creation attempt and has the validated size
    of the current logical size;
  - the copied image is a copy of the current buffer.

The model represents collaborators as follows:

- **Objects the element allocates** (contexts, buffers, images) are values
  with an identity drawn from the counter `nextId`. Two copies are distinct
  exactly when their identities differ.
- **Calls into the rendering context** (`reset`, `reshape`,
  `paintRenderingResultsToCanvas`, `paintRenderingResultsToImageData`,
  `markLayerComposited`) are appended to `contextCalls`.
- **Observer callbacks** are appended to `notices`. The HashSet's iteration
  order is left arbitrary.
- **Facts the element reads from code outside this model** are method
  parameters:
  - whether memory for a buffer is available;
  - whether WebGL is enabled;
  - whether WebGL context creation succeeds;
  - the renderer's content box;
  - the painting flags of the graphics context and the buffer;
  - the set of MIME types the encoder registry supports;
  - whether a 3D context hands back its pixels when `toDataURL` asks.
- **Attributes** arrive already parsed. `None` stands for a value that
  `String::toInt` rejects.

What is cleared when:

- `setSurfaceSize` (and so `reset`) clears the buffer and the copied image but
  not the dirty rectangle or the presented image.
- `didDraw` clears only the copied image.

## Model

| member | source | states |
|---|---|---|
| Geometry.Clamp32 | platform/external/webkit/Source/WebCore/html/HTMLCanvasElement.cpp:496-499 | the clamped value is in the int range, equals the input when the input is in range, and saturates to the nearer bound otherwise |
| Geometry.Intersect | platform/external/webkit/Source/WebCore/html/HTMLCanvasElement.cpp:278 | the intersection holds exactly the pixels both rectangles hold; an empty result is the default rectangle; a non-empty result lies inside both operands |
| Geometry.Unite | platform/external/webkit/Source/WebCore/html/HTMLCanvasElement.cpp:282 | no pixel of either operand is lost; the result contains every non-empty operand; an empty operand is ignored |
| Geometry.ContainsCovers | platform/external/webkit/Source/WebCore/html/HTMLCanvasElement.cpp:279 | edge-wise containment, as used for the redundancy test, implies that every pixel of the inner rectangle is covered |
| Geometry.UniteIsSmallest | platform/external/webkit/Source/WebCore/html/HTMLCanvasElement.cpp:282 | any rectangle containing a non-empty rectangle and the other operand, when that one is non-empty, contains their union |
| Geometry.ValidDeviceSize | platform/external/webkit/Source/WebCore/html/HTMLCanvasElement.cpp:512-526 | the result is the given size or the empty size; it is empty exactly when a side is below 1, the area exceeds 32768*8192, or on Skia a side exceeds 32767; an accepted size needs fewer than 2^31 bytes at 4 bytes per pixel |
| Geometry.DeviceSize | platform/external/webkit/Source/WebCore/html/HTMLCanvasElement.cpp:504-510 | an in-range logical size maps to itself or to the empty size, and it is accepted exactly when both sides are at least 1, the area is within the cap and, on Skia, each side is within 32767; an empty logical size never yields a device size |
| Geometry.DeviceRectAsWritten | platform/external/webkit/Source/WebCore/html/HTMLCanvasElement.cpp:493-502 | the device origin is the clamped logical origin; the size is either empty or at least 1x1 within the area cap, whatever the wrapped edge differences are |
| Geometry.DeviceRectAsWrittenAcceptsInvertedRect | platform/external/webkit/Source/WebCore/html/HTMLCanvasElement.cpp:497-501 | an inverted rectangle whose edges lie inside the int range, x = 2147483520 and width = -4294967040, yields the valid 256x1 device rectangle at (2147483520, 0) |
| Geometry.DeviceRectAsWrittenWithoutOverflow | platform/external/webkit/Source/WebCore/html/HTMLCanvasElement.cpp:493-502 | when the edge differences fit in an int, the as-written conversion equals the corrected one |
| Geometry.DeviceRect | platform/external/webkit/Source/WebCore/html/HTMLCanvasElement.cpp:493-502 | the origin is the clamped origin; a rectangle without area never yields a device size; accepted sizes respect the area cap; an in-range rectangle maps to itself or to an empty one, and it is accepted exactly when its size passes the same validation as a canvas size |
| CanvasSpec.ResetSize | platform/external/webkit/Source/WebCore/html/HTMLCanvasElement.cpp:301-308 | each side is the attribute when it parses and is non-negative, and the default 300 or 150 otherwise; both sides are non-negative |
| CanvasSpec.RequestedKind | platform/external/webkit/Source/WebCore/html/HTMLCanvasElement.cpp:208-268 | "2d" asks for a 2D context; "webkit-3d" and "experimental-webgl" ask for a 3D context exactly when WebGL is enabled; any other type asks for nothing |
| CanvasSpec.RequestContext | platform/external/webkit/Source/WebCore/html/HTMLCanvasElement.cpp:208-268 | a bound context is never replaced; a request of its kind returns it; a request of the other kind or an unknown type returns nothing; an unbound 2D request always binds a new context; an unbound 3D request binds only if creation succeeds |
| CanvasSpec.ContextNeverReplaced | platform/external/webkit/Source/WebCore/html/HTMLCanvasElement.cpp:215-220 | after any sequence of requests, a context that was bound is still the bound context |
| CanvasSpec.BindingIsFinal | platform/external/webkit/Source/WebCore/html/HTMLCanvasElement.cpp:215-220 | a context bound after a prefix of the requests is the one bound after any longer prefix |
| CanvasSpec.AccessBuffer | platform/external/webkit/Source/WebCore/html/HTMLCanvasElement.cpp:631-636 | the first access attempts creation exactly once; later accesses return the same store; creation yields nothing for an empty device size or when memory runs out, and otherwise a new buffer of the validated device size |
| CanvasSpec.CreatedBufferIsValid | platform/external/webkit/Source/WebCore/html/HTMLCanvasElement.cpp:538-569 | a buffer created from an in-range size is non-empty, has that size, and respects the area and Skia caps; with memory available, creation succeeds exactly when the size passes validation; a second access, with whatever memory, changes nothing |
| CanvasSpec.DamageInContentBox | platform/external/webkit/Source/WebCore/html/HTMLCanvasElement.cpp:275-278 | the damage holds exactly the pixels of the drawn rectangle, placed in the content box, that lie inside the content box |
| CanvasSpec.DirtyAfterDraw | platform/external/webkit/Source/WebCore/html/HTMLCanvasElement.cpp:279-282 | redundant damage (empty, or already contained) leaves the dirty rectangle unchanged; otherwise the new dirty rectangle is their bounding union: it contains the damage and the old non-empty rectangle, loses no pixel, and lies inside every rectangle that contains both |
| CanvasSpec.DirtyAfterDrawIdempotent | platform/external/webkit/Source/WebCore/html/HTMLCanvasElement.cpp:279-282 | recording the same damage twice has the effect of recording it once |
| CanvasSpec.NoDamageLost | platform/external/webkit/Source/WebCore/html/HTMLCanvasElement.cpp:271-294 | after any sequence of draws, every pixel of every damage rectangle and of the starting dirty rectangle is in the dirty rectangle |
| CanvasSpec.ExportMimeType | platform/external/webkit/Source/WebCore/html/HTMLCanvasElement.cpp:459-465 | the encoder gets the lower-cased requested type when it is given and supported, and image/png otherwise; the result is always lower-case and either PNG or supported |
| HtmlCanvas.NoticesInIterationOrder | platform/external/webkit/Source/WebCore/html/HTMLCanvasElement.cpp:329-332 | the loop over the observer set produces one notice of the event per observer and reaches every observer |
| HtmlCanvas.CopyFollowsDrawing | platform/external/webkit/Source/WebCore/html/HTMLCanvasElement.cpp:638-646 | on a fresh canvas, repeated copies are the same image until a draw, after which a new copy of the same buffer is made |
| HtmlCanvas.FirstContextWins | platform/external/webkit/Source/WebCore/html/HTMLCanvasElement.cpp:208-268 | after a 2D context is obtained, a WebGL request returns nothing and a second 2D request returns the same context |
| HtmlCanvas.Canvas.constructor | platform/external/webkit/Source/WebCore/html/HTMLCanvasElement.cpp:95-121 | a new canvas is 300x150, has no context, buffer, copies or observers, is origin-clean, and has an empty dirty rectangle |
| HtmlCanvas.Canvas.AddObserver | platform/external/webkit/Source/WebCore/html/HTMLCanvasElement.cpp:188-191 | the observer set gains the observer and nothing else |
| HtmlCanvas.Canvas.RemoveObserver | platform/external/webkit/Source/WebCore/html/HTMLCanvasElement.cpp:193-196 | the observer set loses the observer and nothing else |
| HtmlCanvas.Canvas.NotifyObservers | platform/external/webkit/Source/WebCore/html/HTMLCanvasElement.cpp:329-332 | earlier notices are kept and each current observer receives the event exactly once |
| HtmlCanvas.Canvas.Destroy | platform/external/webkit/Source/WebCore/html/HTMLCanvasElement.cpp:154-158 | every observer is told once that the canvas is destroyed |
| HtmlCanvas.Canvas.GetContext | platform/external/webkit/Source/WebCore/html/HTMLCanvasElement.cpp:208-268 | the bound and returned contexts follow RequestContext; an identity is consumed only when a context is newly bound |
| HtmlCanvas.Canvas.CreateImageBuffer | platform/external/webkit/Source/WebCore/html/HTMLCanvasElement.cpp:538-569 | the creation attempt is recorded; the buffer follows AccessBuffer; the invariant is kept |
| HtmlCanvas.Canvas.Buffer | platform/external/webkit/Source/WebCore/html/HTMLCanvasElement.cpp:631-636 | the first call creates the buffer and later calls return the same one, as AccessBuffer says |
| HtmlCanvas.Canvas.SetSurfaceSize | platform/external/webkit/Source/WebCore/html/HTMLCanvasElement.cpp:443-449 | the size is replaced; the buffer, creation flag and copied image are cleared; nothing else changes |
| HtmlCanvas.Canvas.Reset | platform/external/webkit/Source/WebCore/html/HTMLCanvasElement.cpp:296-333 | with resets ignored nothing changes; otherwise the size follows ResetSize, the buffer and copy are cleared, a 3D context is reshaped if the size changed, a 2D context is reset, and every observer is told once of the resize |
| HtmlCanvas.Canvas.DidDraw | platform/external/webkit/Source/WebCore/html/HTMLCanvasElement.cpp:271-294 | the copied image is dropped; the dirty rectangle follows DirtyAfterDraw; redundant damage notifies nobody, otherwise every observer is told once of the change |
| HtmlCanvas.Canvas.CopiedImage | platform/external/webkit/Source/WebCore/html/HTMLCanvasElement.cpp:638-646 | a cached copy is returned unchanged; otherwise the buffer is accessed, the context flushes, and a fresh copy of the buffer is cached and returned |
| HtmlCanvas.Canvas.ClearCopiedImage | platform/external/webkit/Source/WebCore/html/HTMLCanvasElement.cpp:648-651 | the copied image is dropped and nothing else changes |
| HtmlCanvas.Canvas.MakePresentationCopy | platform/external/webkit/Source/WebCore/html/HTMLCanvasElement.cpp:430-436 | an existing presented image is kept; otherwise a fresh copy of the buffer becomes the presented image |
| HtmlCanvas.Canvas.ClearPresentationCopy | platform/external/webkit/Source/WebCore/html/HTMLCanvasElement.cpp:438-441 | the presented image is dropped and nothing else changes |
| HtmlCanvas.Canvas.Paint | platform/external/webkit/Source/WebCore/html/HTMLCanvasElement.cpp:335-374 | the dirty rectangle is cleared and the backing store is unchanged; what is drawn follows the branches: nothing when painting is disabled, the context does not paint into the buffer, or the buffer records; otherwise the presented image, the copied image, or the buffer itself |
| HtmlCanvas.Canvas.ToDataURL | platform/external/webkit/Source/WebCore/html/HTMLCanvasElement.cpp:451-477 | a tainted canvas is a security error and changes nothing; an empty canvas or a missing buffer gives "data:,"; otherwise, with the type ExportMimeType chooses, a 3D context is asked to read back its pixels and those are encoded when it returns them; else the context flushes into the buffer and the buffer is encoded |
| HtmlCanvas.Canvas.EnableGpuRendering | platform/external/webkit/Source/WebCore/html/HTMLCanvasElement.cpp:572-578 | GPU rendering is on afterwards and nothing else changes |
| HtmlCanvas.Canvas.DisableGpuRendering | platform/external/webkit/Source/WebCore/html/HTMLCanvasElement.cpp:580-586 | GPU rendering is off afterwards and nothing else changes |

## Left out

- Reading the `debug.recordingcanvas*` and `debug.gpucanvas` system properties in the constructor: these are platform I/O.
- `create`, `createRenderer`, `parseMappedAttribute`, `setWidth`, `setHeight`, `securityOrigin` and `styleSelector`: DOM and renderer plumbing. The renderer's repaint and `canvasSizeChanged` calls, and `setNeedsStyleRecalc`, are not recorded.
- The setter of `m_ignoreReset` lives in the header's `setSize`, which is not part of this model. The flag is a field that no modelled method changes.
- `setOriginTainted`, the only setter of `m_originClean`, also lives in the header and is not part of this model. No modelled method clears `originClean`, so `ToDataURL`'s security-error branch is reached only from a state where some caller has tainted the canvas.
- The registration for document activation and suspend callbacks, `document()->setContainsWebGLContent(true)` when a WebGL context is bound, and the WebGL handlers `documentDidBecomeActive`, `documentWillBecomeInactive`, `documentWasSuspended` and `documentWillResume`: these only forward to WebGL surface management.
- `clearRecording`, `canUseGpuRendering` and the CanvasLayer calls: they belong to the Android GPU compositing layer. The recording flag is a parameter of paint.
- `drawingContext` is `buffer()` followed by the buffer's graphics context, so its effect on state is `Buffer`'s; `baseTransform` only reads a transform. `is3D` is folded into the context's kind.
- `getImageData` and `makeRenderingResultsAvailable` are modelled only where `ToDataURL` uses them: their calls into the context are recorded, and whether the 3D read-back yields pixels is a parameter.
- HtmlCanvas.Canvas.ToDataURL: stops at choosing the MIME type and the pixels to encode (`EncodeImageData(type)` or `EncodeBuffer(type)`). `ImageDataToDataURL` and `ImageBuffer::toDataURL`, and the `quality` argument, are foreign code.
- HtmlCanvas.Canvas.CreateImageBuffer: the context scaling and interpolation settings on the new buffer are not modelled. Neither is the JavaScript heap's memory-cost report.
- HtmlCanvas.Canvas.DidDraw: the drawn rectangle is placed in the content box by translation only, because the model fixes the CSS scale of `mapRect` at 1. The renderer is a parameter (`None` when there is no render box). One consequence: WebCore's `mapRect` yields an empty rectangle when the canvas has zero width or height, so such a canvas with a non-empty content box returns early and notifies nobody, whereas the model may grow the dirty rectangle and notify.
- HtmlCanvas.Canvas.CopiedImage: `ImageBuffer::copyImage` is assumed to succeed.
- HtmlCanvas.Canvas.MakePresentationCopy: requires a buffer to be obtainable, because the code dereferences `buffer()` without a null check.
- Geometry.ValidDeviceSize: sizes and rectangles are integers. The `float` arithmetic, its `floorf`/`ceilf` rounding and the float rounding of the area product near the cap are not modelled.
- Geometry.DeviceSize: the page scale factor is fixed at 1, as in the Android constructor.
- `String::lower` is modelled for ASCII letters only, and `String::toInt` is replaced by attributes that arrive already parsed.
- The order in which a HashSet yields its observers is not modelled. Any order is allowed.

## Findings

| source | as written | input that shows it | evidently intended | confidence | as-written member | corrected member |
|---|---|---|---|---|---|---|
| platform/external/webkit/Source/WebCore/html/HTMLCanvasElement.cpp:501 | each edge of the logical rectangle is clamped to the int range, then `right - left` and `bottom - top` are computed in `int`, where they can overflow | x = 2147483520, width = -4294967040, y = 0, height = 1: every edge and the float sum are exact and inside the int range (left = 2147483520, right = -2147483520), and `right - left` wraps from -4294967040 to 256, so an inverted rectangle without area becomes the valid 256x1 device rectangle at (2147483520, 0) | a rectangle without area maps to an empty device size | low: not executed; the wrap assumes two's-complement behaviour for a signed overflow, which C++ leaves undefined, and callers may never pass such rectangles | Geometry.DeviceRectAsWrittenAcceptsInvertedRect | Geometry.DeviceRect |
