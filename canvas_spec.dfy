/** Values and pure rules of the canvas surface manager (HTMLCanvasElement):
    the objects it hands out, modelled as tokens; the context-exclusivity
    state machine; the size defaults applied by reset; one-shot backing-store
    creation; dirty-rectangle accumulation; and the MIME fallback of toDataURL.
    The class in canvas.dfy is specified by these functions. */
module CanvasSpec {
  import opened Geometry

  datatype Option<T> = None | Some(value: T)

  /** The size a canvas has when its width or height attribute is missing,
      unparsable or negative. */
  const DefaultWidth: int := 300
  const DefaultHeight: int := 150

  // ---------------------------------------------------------------------
  // Objects the canvas creates, as tokens. `id` stands for the identity of
  // the allocated object: two tokens are the same object when they are equal.

  datatype ContextKind = TwoD | ThreeD

  /** A CanvasRenderingContext2D or a WebGLRenderingContext. */
  datatype RenderingContext = RenderingContext(kind: ContextKind, id: nat)

  /** An ImageBuffer of the given device size. */
  datatype ImageBuffer = ImageBuffer(id: nat, size: IntSize)

  /** An Image copied out of the image buffer whose id is `source`. */
  datatype Image = Image(id: nat, source: nat)

  /** Calls the canvas makes into its rendering context. */
  datatype ContextCall =
    | ResetState                      // CanvasRenderingContext2D::reset
    | Reshape(width: int, height: int) // WebGLRenderingContext::reshape
    | PaintResultsToCanvas            // paintRenderingResultsToCanvas
    | MarkLayerComposited             // WebGLRenderingContext::markLayerComposited
    | PaintResultsToImageData         // WebGLRenderingContext::paintRenderingResultsToImageData

  /** CanvasObserver callbacks. */
  datatype Event = Resized | Changed(rect: Rect) | Destroyed

  /** One callback delivered to one observer. */
  datatype Notice = Notice(observer: int, event: Event)

  /** What toDataURL yields: SECURITY_ERR, a literal URL, or the MIME type the
      encoder is asked to produce, either from the pixels a 3D context read
      back or from the image buffer. */
  datatype ExportResult =
    | SecurityError
    | DataUrl(url: string)
    | EncodeImageData(mimeType: string)
    | EncodeBuffer(mimeType: string)

  /** What paint draws into the destination graphics context. */
  datatype PaintSource =
    | NothingDrawn
    | DrewPresented(image: Image)
    | DrewCopy(image: Image)
    | DrewBuffer(buffer: ImageBuffer)

  // ---------------------------------------------------------------------
  // reset: attribute defaults

  /** The value reset uses for one dimension: the parsed attribute when it
      parsed (Some) and is not negative, the default otherwise. */
  function AttributeOrDefault(attr: Option<int>, default: int): int {
    if attr.None? || attr.value < 0 then default else attr.value
  }

  /** The surface size reset computes from the width and height attributes. */
  function ResetSize(widthAttr: Option<int>, heightAttr: Option<int>): (s: IntSize)
    ensures 0 <= s.width && 0 <= s.height
    ensures widthAttr.None? || widthAttr.value < 0 ==> s.width == DefaultWidth
    ensures heightAttr.None? || heightAttr.value < 0 ==> s.height == DefaultHeight
    ensures widthAttr.Some? && widthAttr.value >= 0 ==> s.width == widthAttr.value
    ensures heightAttr.Some? && heightAttr.value >= 0 ==> s.height == heightAttr.value
  {
    IntSize(AttributeOrDefault(widthAttr, DefaultWidth), AttributeOrDefault(heightAttr, DefaultHeight))
  }

  // ---------------------------------------------------------------------
  // getContext: the exclusivity state machine

  /** The kind a context type string asks for. "2d" always names the 2D
      context; "webkit-3d" and "experimental-webgl" name the 3D context only
      when WebGL (and, on this platform, accelerated compositing) is enabled.
      Every other string names nothing. */
  function RequestedKind(contextType: string, webGLEnabled: bool): (k: Option<ContextKind>)
    ensures k == Some(TwoD) <==> contextType == "2d"
    ensures k == Some(ThreeD) <==>
      webGLEnabled && (contextType == "webkit-3d" || contextType == "experimental-webgl")
  {
    if contextType == "2d" then Some(TwoD)
    else if webGLEnabled && (contextType == "webkit-3d" || contextType == "experimental-webgl") then Some(ThreeD)
    else None
  }

  /** One call of getContext: the type string, whether WebGL is enabled,
      whether WebGLRenderingContext::create would succeed, and the identity a
      newly created context would get. */
  datatype ContextRequest = ContextRequest(contextType: string, webGLEnabled: bool, created3D: bool, newId: nat)

  /** The context bound after a call, and the one the call returns. */
  datatype ContextOutcome = ContextOutcome(bound: Option<RenderingContext>, returned: Option<RenderingContext>)

  /** getContext. A bound context is never replaced; a request for its own
      kind returns it, any other request returns null. An unbound canvas binds
      a new context of the requested kind (a 3D one only when creating it
      succeeds). */
  function RequestContext(current: Option<RenderingContext>, req: ContextRequest): (o: ContextOutcome)
    ensures current.Some? ==> o.bound == current
    ensures o.returned.Some? ==>
      o.bound == o.returned &&
      RequestedKind(req.contextType, req.webGLEnabled) == Some(o.returned.value.kind)
    ensures RequestedKind(req.contextType, req.webGLEnabled).None? ==> o == ContextOutcome(current, None)
    ensures current.Some? && RequestedKind(req.contextType, req.webGLEnabled) == Some(current.value.kind) ==>
      o.returned == current
    ensures current.Some? && RequestedKind(req.contextType, req.webGLEnabled) != Some(current.value.kind) ==>
      o.returned.None?
    ensures current.None? && req.contextType == "2d" ==>
      o.returned == Some(RenderingContext(TwoD, req.newId))
    ensures current.None? && RequestedKind(req.contextType, req.webGLEnabled) == Some(ThreeD) ==>
      o.bound == o.returned &&
      o.returned == (if req.created3D then Some(RenderingContext(ThreeD, req.newId)) else None)
  {
    match RequestedKind(req.contextType, req.webGLEnabled)
    case None => ContextOutcome(current, None)
    case Some(kind) =>
      if current.Some? then
        if current.value.kind == kind then ContextOutcome(current, current)
        else ContextOutcome(current, None)
      else if kind == TwoD || req.created3D then
        var created := Some(RenderingContext(kind, req.newId));
        ContextOutcome(created, created)
      else
        ContextOutcome(None, None)
  }

  /** The context bound after a sequence of getContext calls. */
  function BoundAfter(current: Option<RenderingContext>, reqs: seq<ContextRequest>): Option<RenderingContext>
    decreases |reqs|
  {
    if reqs == [] then current
    else BoundAfter(RequestContext(current, reqs[0]).bound, reqs[1..])
  }

  /** Once a context is bound, no sequence of getContext calls replaces it. */
  lemma {:induction false} ContextNeverReplaced(current: Option<RenderingContext>, reqs: seq<ContextRequest>)
    requires current.Some?
    ensures BoundAfter(current, reqs) == current
    decreases |reqs|
  {
    if reqs != [] {
      ContextNeverReplaced(RequestContext(current, reqs[0]).bound, reqs[1..]);
    }
  }

  lemma {:induction false} BoundAfterAppend(current: Option<RenderingContext>, a: seq<ContextRequest>, b: seq<ContextRequest>)
    ensures BoundAfter(current, a + b) == BoundAfter(BoundAfter(current, a), b)
    decreases |a|
  {
    if a != [] {
      assert (a + b)[0] == a[0];
      assert (a + b)[1..] == a[1..] + b;
      BoundAfterAppend(RequestContext(current, a[0]).bound, a[1..], b);
    } else {
      assert a + b == b;
    }
  }

  /** Starting from a fresh canvas, the context bound after the first i calls
      is still the one bound after any later number of calls. */
  lemma BindingIsFinal(reqs: seq<ContextRequest>, i: nat, j: nat)
    requires i <= j <= |reqs|
    requires BoundAfter(None, reqs[..i]).Some?
    ensures BoundAfter(None, reqs[..j]) == BoundAfter(None, reqs[..i])
  {
    assert reqs[..j] == reqs[..i] + reqs[i..j];
    BoundAfterAppend(None, reqs[..i], reqs[i..j]);
    ContextNeverReplaced(BoundAfter(None, reqs[..i]), reqs[i..j]);
  }

  // ---------------------------------------------------------------------
  // buffer / createImageBuffer: one-shot backing-store creation

  /** The pair m_hasCreatedImageBuffer, m_imageBuffer. */
  datatype BackingStore = BackingStore(attempted: bool, buffer: Option<ImageBuffer>)

  /** buffer(): the first access after a resize attempts creation, which
      fails when the device size is empty or memory runs out; any later
      access returns what that attempt left, without retrying. */
  function AccessBuffer(store: BackingStore, size: IntSize, skia: bool, memoryAvailable: bool, newId: nat): (s: BackingStore)
    requires store.buffer.Some? ==> store.attempted
    ensures s.attempted
    ensures store.attempted ==> s == store
    ensures !store.attempted && (DeviceSize(size, skia).IsEmpty() || !memoryAvailable) ==> s.buffer.None?
    ensures !store.attempted && !DeviceSize(size, skia).IsEmpty() && memoryAvailable ==>
      s.buffer == Some(ImageBuffer(newId, DeviceSize(size, skia)))
  {
    if store.attempted then store
    else
      var device := DeviceSize(size, skia);
      if device.width == 0 || device.height == 0 || !memoryAvailable then BackingStore(true, None)
      else BackingStore(true, Some(ImageBuffer(newId, device)))
  }

  /** A buffer that creation produced has an acceptable, non-empty device
      size; creation with memory available succeeds exactly when the size
      passes validation; and a second access changes nothing. */
  lemma CreatedBufferIsValid(store: BackingStore, size: IntSize, skia: bool, memoryAvailable: bool, newId: nat, memoryLater: bool, idLater: nat)
    requires store.buffer.None? && !store.attempted
    requires InInt32(size.width) && InInt32(size.height)
    ensures var s := AccessBuffer(store, size, skia, memoryAvailable, newId);
      (s.buffer.Some? ==> !s.buffer.value.size.IsEmpty() && s.buffer.value.size == size &&
                          s.buffer.value.size.width * s.buffer.value.size.height <= MaxCanvasArea &&
                          (skia ==> s.buffer.value.size.width <= MaxSkiaDim && s.buffer.value.size.height <= MaxSkiaDim)) &&
      AccessBuffer(s, size, skia, memoryLater, idLater) == s
    ensures memoryAvailable ==>
      (AccessBuffer(store, size, skia, memoryAvailable, newId).buffer.Some? <==>
       !(size.width < 1 || size.height < 1 || size.width * size.height > MaxCanvasArea ||
         (skia && (size.width > MaxSkiaDim || size.height > MaxSkiaDim))))
  {
  }

  // ---------------------------------------------------------------------
  // didDraw: dirty-rectangle accumulation

  /** Damage that leaves the dirty rectangle as it is: an empty rectangle or
      one the dirty rectangle already contains. */
  predicate RedundantDamage(dirty: Rect, damage: Rect) {
    damage.IsEmpty() || dirty.Contains(damage)
  }

  /** The damage a draw of `rect` (canvas coordinates) reports, in the
      coordinates of the renderer's content box: mapped onto the box (a pure
      translation when the box has the canvas's size) and clipped to it. */
  function DamageInContentBox(rect: Rect, contentBox: Rect): (r: Rect)
    ensures forall px, py :: r.HasPoint(px, py) <==>
      contentBox.HasPoint(px, py) && rect.HasPoint(px - contentBox.x, py - contentBox.y)
  {
    var mapped := Rect(contentBox.x + rect.x, contentBox.y + rect.y, rect.width, rect.height);
    assert forall px, py :: mapped.HasPoint(px, py) <==> rect.HasPoint(px - contentBox.x, py - contentBox.y);
    Intersect(mapped, contentBox)
  }

  /** The dirty rectangle after one draw's damage: unchanged for redundant
      damage, otherwise the union. No damage is lost. */
  function DirtyAfterDraw(dirty: Rect, damage: Rect): (d: Rect)
    ensures RedundantDamage(dirty, damage) ==> d == dirty
    ensures forall px, py :: dirty.HasPoint(px, py) || damage.HasPoint(px, py) ==> d.HasPoint(px, py)
    ensures !damage.IsEmpty() ==> d.Contains(damage)
    ensures !dirty.IsEmpty() ==> d.Contains(dirty)
    // new damage makes the dirty rectangle the bounding box and no larger
    ensures !RedundantDamage(dirty, damage) ==>
      forall c: Rect :: (!dirty.IsEmpty() ==> c.Contains(dirty)) && c.Contains(damage) ==> c.Contains(d)
  {
    if RedundantDamage(dirty, damage) then dirty
    else
      forall c: Rect | (!dirty.IsEmpty() ==> c.Contains(dirty)) && c.Contains(damage)
        ensures c.Contains(Unite(dirty, damage))
      {
        UniteIsSmallest(dirty, damage, c);
      }
      Unite(dirty, damage)
  }

  /** Reporting the same damage twice is the same as reporting it once. */
  lemma DirtyAfterDrawIdempotent(dirty: Rect, damage: Rect)
    ensures DirtyAfterDraw(DirtyAfterDraw(dirty, damage), damage) == DirtyAfterDraw(dirty, damage)
  {
  }

  /** The dirty rectangle after a sequence of draws' damage. */
  function DirtyAfterDraws(dirty: Rect, damages: seq<Rect>): Rect
    decreases |damages|
  {
    if damages == [] then dirty
    else DirtyAfterDraws(DirtyAfterDraw(dirty, damages[0]), damages[1..])
  }

  /** Between two paints, the dirty rectangle covers every pixel it covered
      before and every pixel of every reported damage rectangle. */
  lemma {:induction false} NoDamageLost(dirty: Rect, damages: seq<Rect>)
    ensures forall px, py :: dirty.HasPoint(px, py) ==> DirtyAfterDraws(dirty, damages).HasPoint(px, py)
    ensures forall i, px, py :: 0 <= i < |damages| && damages[i].HasPoint(px, py) ==>
      DirtyAfterDraws(dirty, damages).HasPoint(px, py)
    decreases |damages|
  {
    if damages != [] {
      var next := DirtyAfterDraw(dirty, damages[0]);
      NoDamageLost(next, damages[1..]);
      forall i, px, py | 0 <= i < |damages| && damages[i].HasPoint(px, py)
        ensures DirtyAfterDraws(dirty, damages).HasPoint(px, py)
      {
        if i > 0 {
          assert damages[1..][i - 1] == damages[i];
        }
      }
    }
  }

  // ---------------------------------------------------------------------
  // toDataURL: MIME type fallback

  const PngMimeType: string := "image/png"

  function LowerChar(c: char): char {
    if 'A' <= c <= 'Z' then (c as int + 32) as char else c
  }

  /** String::lower, on ASCII letters. */
  function Lower(s: string): string {
    seq(|s|, i requires 0 <= i < |s| => LowerChar(s[i]))
  }

  lemma LowerIdempotent(s: string)
    ensures Lower(Lower(s)) == Lower(s)
  {
  }

  /** The MIME type toDataURL encodes with: the lower-cased request when it
      is given and supported for encoding, image/png otherwise. The encoder is
      always asked for a lower-case, supported type or for PNG. */
  function ExportMimeType(mimeType: Option<string>, supported: set<string>): (m: string)
    ensures m == PngMimeType || m in supported
    ensures Lower(m) == m
    ensures mimeType.Some? && Lower(mimeType.value) in supported ==> m == Lower(mimeType.value)
    ensures mimeType.None? || Lower(mimeType.value) !in supported ==> m == PngMimeType
  {
    if mimeType.None? || Lower(mimeType.value) !in supported then
      assert Lower(PngMimeType) == PngMimeType;
      PngMimeType
    else
      LowerIdempotent(mimeType.value);
      Lower(mimeType.value)
  }

  // ---------------------------------------------------------------------
  // observers

  /** The observers that a run of notices reaches. */
  function Recipients(notices: seq<Notice>): set<int> {
    set n | n in notices :: n.observer
  }

  /** `after` extends `before` by one notice of `event` per observer: as many
      notices as observers, and together they reach every observer. */
  ghost predicate NotifiedEachOnce(before: seq<Notice>, after: seq<Notice>, observers: set<int>, event: Event) {
    |before| <= |after| && after[..|before|] == before &&
    Delivered(after[|before|..], observers, event)
  }

  /** `sent` holds one notice of `event` for each observer in `reached`. */
  ghost predicate Delivered(sent: seq<Notice>, reached: set<int>, event: Event) {
    |sent| == |reached| &&
    (forall n :: n in sent ==> n.event == event) &&
    Recipients(sent) == reached
  }

  lemma DeliveredStep(sent: seq<Notice>, reached: set<int>, event: Event, observer: int)
    requires Delivered(sent, reached, event) && observer !in reached
    ensures Delivered(sent + [Notice(observer, event)], reached + {observer}, event)
  {
    var n := Notice(observer, event);
    assert forall m :: m in sent + [n] <==> m in sent || m == n;
    assert Recipients(sent + [n]) == Recipients(sent) + {observer};
  }

  lemma DeliveredToAll(before: seq<Notice>, after: seq<Notice>, sent: seq<Notice>, observers: set<int>, event: Event)
    requires after == before + sent && Delivered(sent, observers, event)
    ensures NotifiedEachOnce(before, after, observers, event)
  {
    assert after[..|before|] == before && after[|before|..] == sent;
  }

  /** The calls reset makes into the bound context: a 3D context is reshaped
      when the size changed, a 2D context has its drawing state reset. */
  function ContextCallsOnReset(context: Option<RenderingContext>, oldSize: IntSize, newSize: IntSize): seq<ContextCall> {
    if context.Some? && context.value.kind == ThreeD && oldSize != newSize then [Reshape(newSize.width, newSize.height)]
    else if context.Some? && context.value.kind == TwoD then [ResetState]
    else []
  }

  /** paintRenderingResultsToCanvas, issued only when a context is bound. */
  function FlushCalls(context: Option<RenderingContext>): seq<ContextCall> {
    if context.Some? then [PaintResultsToCanvas] else []
  }

  /** getImageData: only a 3D context is asked to read its pixels back. */
  function ReadbackCalls(context: Option<RenderingContext>): seq<ContextCall> {
    if context.Some? && context.value.kind == ThreeD then [PaintResultsToImageData] else []
  }

  /** markLayerComposited, issued at the end of paint for a 3D context. */
  function CompositeCalls(context: Option<RenderingContext>): seq<ContextCall> {
    if context.Some? && context.value.kind == ThreeD then [MarkLayerComposited] else []
  }
}
