/** HTMLCanvasElement: the canvas element's surface manager. Its fields are
    those of the element; each method changes them in place as the element's
    method of the same name does, and is specified by the rules of CanvasSpec.
    What the element gets from collaborators it cannot see (whether memory for
    a buffer is available, whether WebGL is enabled, how the renderer paints)
    arrives as parameters. */
module HtmlCanvas {
  import opened Geometry
  import opened CanvasSpec

  /** Helper for the loop below: a non-empty set has an element to pick. */
  lemma NonEmptyHasElement(s: set<int>)
    requires s != {}
    ensures exists o :: o in s
  {
    assert (forall o :: o !in s) ==> s == {};
  }

  /** The loop over a HashSet of observers: one notice of `event` per
      observer, in whatever order the set's iterator yields them. */
  method NoticesInIterationOrder(observers: set<int>, event: Event) returns (sent: seq<Notice>)
    ensures Delivered(sent, observers, event)
  {
    sent := [];
    ghost var done: set<int> := {};
    var remaining := observers;
    while remaining != {}
      invariant done + remaining == observers && done !! remaining
      invariant Delivered(sent, done, event)
      decreases remaining
    {
      NonEmptyHasElement(remaining);
      var o :| o in remaining;
      DeliveredStep(sent, done, event, o);
      sent := sent + [Notice(o, event)];
      done := done + {o};
      remaining := remaining - {o};
    }
  }

  class Canvas {
    /** Whether the build uses the Skia backend (USE(SKIA)), which also limits
        each side of a device size. */
    const skia: bool

    var size: IntSize                       // m_size
    var context: Option<RenderingContext>   // m_context
    var hasCreatedImageBuffer: bool         // m_hasCreatedImageBuffer
    var imageBuffer: Option<ImageBuffer>    // m_imageBuffer
    var copiedImage: Option<Image>          // m_copiedImage
    var presentedImage: Option<Image>       // m_presentedImage
    var dirtyRect: Rect                     // m_dirtyRect
    var observers: set<int>                 // m_observers
    var ignoreReset: bool                   // m_ignoreReset
    var originClean: bool                   // m_originClean
    var gpuRendering: bool                  // m_gpuRendering

    /** Identity the next object the canvas allocates will get. */
    var nextId: nat
    /** Calls made into the rendering context, oldest first. */
    var contextCalls: seq<ContextCall>
    /** Observer callbacks delivered, oldest first. */
    var notices: seq<Notice>

    /** The object invariant: a buffer exists only after a creation attempt
        and has the validated device size of the current size; the copied
        image is a copy of the current buffer; every object handed out so far
        has an identity below nextId. */
    ghost predicate Valid()
      reads this
    {
      (imageBuffer.Some? ==>
         hasCreatedImageBuffer && imageBuffer.value.id < nextId &&
         imageBuffer.value.size == DeviceSize(size, skia) && !imageBuffer.value.size.IsEmpty()) &&
      (copiedImage.Some? ==>
         imageBuffer.Some? && copiedImage.value.source == imageBuffer.value.id && copiedImage.value.id < nextId) &&
      (presentedImage.Some? ==> presentedImage.value.id < nextId) &&
      (context.Some? ==> context.value.id < nextId)
    }

    /** The backing store as one value. */
    function Store(): BackingStore
      reads this
    {
      BackingStore(hasCreatedImageBuffer, imageBuffer)
    }

    /** A new canvas: 300x150, no context, no buffer, clean, nobody observing. */
    constructor(skia: bool)
      ensures Valid() && this.skia == skia
      ensures size == IntSize(DefaultWidth, DefaultHeight)
      ensures context.None? && Store() == BackingStore(false, None)
      ensures copiedImage.None? && presentedImage.None? && dirtyRect == EmptyRect
      ensures observers == {} && !ignoreReset && originClean && !gpuRendering
      ensures contextCalls == [] && notices == []
    {
      this.skia := skia;
      size := IntSize(DefaultWidth, DefaultHeight);
      context := None;
      hasCreatedImageBuffer := false;
      imageBuffer := None;
      copiedImage := None;
      presentedImage := None;
      dirtyRect := EmptyRect;
      observers := {};
      ignoreReset := false;
      originClean := true;
      gpuRendering := false;
      nextId := 0;
      contextCalls := [];
      notices := [];
    }

    // -------------------------------------------------------------------
    // observers

    method AddObserver(observer: int)
      requires Valid()
      modifies this`observers
      ensures Valid()
      ensures observers == old(observers) + {observer}
    {
      observers := observers + {observer};
    }

    method RemoveObserver(observer: int)
      requires Valid()
      modifies this`observers
      ensures Valid()
      ensures observers == old(observers) - {observer}
    {
      observers := observers - {observer};
    }

    /** Deliver `event` to every observer once, in the set's iteration order. */
    method NotifyObservers(event: Event)
      requires Valid()
      modifies this`notices
      ensures Valid()
      ensures NotifiedEachOnce(old(notices), notices, observers, event)
    {
      var sent := NoticesInIterationOrder(observers, event);
      DeliveredToAll(notices, notices + sent, sent, observers, event);
      notices := notices + sent;
    }

    /** The destructor: every observer learns that the canvas is destroyed. */
    method Destroy()
      requires Valid()
      modifies this`notices
      ensures Valid()
      ensures NotifiedEachOnce(old(notices), notices, observers, Destroyed)
    {
      NotifyObservers(Destroyed);
    }

    // -------------------------------------------------------------------
    // getContext

    /** Return the context of the requested kind, binding a new one if none is
        bound yet; null for the other kind and for unknown type strings. */
    method GetContext(contextType: string, webGLEnabled: bool, created3D: bool) returns (r: Option<RenderingContext>)
      requires Valid()
      modifies this`context, this`nextId
      ensures Valid()
      ensures ContextOutcome(context, r) ==
        RequestContext(old(context), ContextRequest(contextType, webGLEnabled, created3D, old(nextId)))
      ensures nextId == if old(context).None? && context.Some? then old(nextId) + 1 else old(nextId)
    {
      if contextType == "2d" {
        if context.Some? && context.value.kind != TwoD {
          return None;
        }
        if context.None? {
          context := Some(RenderingContext(TwoD, nextId));
          nextId := nextId + 1;
        }
        return context;
      }
      if webGLEnabled {
        if contextType == "webkit-3d" || contextType == "experimental-webgl" {
          if context.Some? && context.value.kind != ThreeD {
            return None;
          }
          if context.None? && created3D {
            context := Some(RenderingContext(ThreeD, nextId));
            nextId := nextId + 1;
          }
          return context;
        }
      }
      return None;
    }

    // -------------------------------------------------------------------
    // backing store

    /** createImageBuffer: mark the attempt, then allocate a buffer of the
        device size unless that size is empty or allocation fails. */
    method CreateImageBuffer(memoryAvailable: bool)
      requires Valid() && !hasCreatedImageBuffer
      modifies this`hasCreatedImageBuffer, this`imageBuffer, this`nextId
      ensures Valid()
      ensures Store() == AccessBuffer(old(Store()), size, skia, memoryAvailable, old(nextId))
      ensures nextId == if imageBuffer.Some? then old(nextId) + 1 else old(nextId)
    {
      hasCreatedImageBuffer := true;
      var device := DeviceSize(size, skia);
      if device.width == 0 || device.height == 0 {
        return;
      }
      if !memoryAvailable {
        // ImageBuffer::create returned null
        return;
      }
      imageBuffer := Some(ImageBuffer(nextId, device));
      nextId := nextId + 1;
    }

    /** buffer(): create on first access only. */
    method Buffer(memoryAvailable: bool) returns (b: Option<ImageBuffer>)
      requires Valid()
      modifies this`hasCreatedImageBuffer, this`imageBuffer, this`nextId
      ensures Valid()
      ensures Store() == AccessBuffer(old(Store()), size, skia, memoryAvailable, old(nextId))
      ensures b == imageBuffer
      ensures nextId == if old(imageBuffer).None? && imageBuffer.Some? then old(nextId) + 1 else old(nextId)
    {
      if !hasCreatedImageBuffer {
        CreateImageBuffer(memoryAvailable);
      }
      b := imageBuffer;
    }

    /** setSurfaceSize: a new size drops the buffer and the copied image and
        allows one new creation attempt. The presented image and the dirty
        rectangle are kept. */
    method SetSurfaceSize(newSize: IntSize)
      requires Valid()
      modifies this`size, this`hasCreatedImageBuffer, this`imageBuffer, this`copiedImage
      ensures Valid()
      ensures size == newSize && Store() == BackingStore(false, None) && copiedImage.None?
    {
      size := newSize;
      hasCreatedImageBuffer := false;
      imageBuffer := None;
      copiedImage := None;
    }

    /** reset: unless resets are being ignored, take the size from the
        attributes (defaulting bad values), drop the backing store, tell the
        context, and tell every observer of the resize. */
    method Reset(widthAttr: Option<int>, heightAttr: Option<int>)
      requires Valid()
      modifies this`size, this`hasCreatedImageBuffer, this`imageBuffer, this`copiedImage
      modifies this`contextCalls, this`notices
      ensures Valid()
      ensures old(ignoreReset) ==> unchanged(this)
      ensures !ignoreReset ==>
        size == ResetSize(widthAttr, heightAttr) &&
        Store() == BackingStore(false, None) && copiedImage.None? &&
        contextCalls == old(contextCalls) + ContextCallsOnReset(context, old(size), size) &&
        NotifiedEachOnce(old(notices), notices, observers, Resized)
    {
      if ignoreReset {
        return;
      }
      var w := AttributeOrDefault(widthAttr, DefaultWidth);
      var h := AttributeOrDefault(heightAttr, DefaultHeight);
      var oldSize := size;
      SetSurfaceSize(IntSize(w, h));
      if context.Some? && context.value.kind == ThreeD && oldSize != size {
        contextCalls := contextCalls + [Reshape(size.width, size.height)];
      }
      if context.Some? && context.value.kind == TwoD {
        contextCalls := contextCalls + [ResetState];
      }
      NotifyObservers(Resized);
    }

    // -------------------------------------------------------------------
    // drawing and painting

    /** didDraw: any draw drops the copied image. When the canvas has a
        renderer box, the damage mapped into its content box is accumulated
        into the dirty rectangle, and redundant damage returns early without
        notifying anyone. */
    method DidDraw(rect: Rect, contentBox: Option<Rect>)
      requires Valid()
      modifies this`copiedImage, this`dirtyRect, this`notices
      ensures Valid()
      ensures copiedImage.None?
      ensures contentBox.None? ==>
        dirtyRect == old(dirtyRect) && NotifiedEachOnce(old(notices), notices, observers, Changed(rect))
      ensures contentBox.Some? ==>
        var damage := DamageInContentBox(rect, contentBox.value);
        dirtyRect == DirtyAfterDraw(old(dirtyRect), damage) &&
        if RedundantDamage(old(dirtyRect), damage) then notices == old(notices)
        else NotifiedEachOnce(old(notices), notices, observers, Changed(rect))
    {
      copiedImage := None;
      if contentBox.Some? {
        var damage := DamageInContentBox(rect, contentBox.value);
        if damage.IsEmpty() || dirtyRect.Contains(damage) {
          return;
        }
        dirtyRect := Unite(dirtyRect, damage);
      }
      NotifyObservers(Changed(rect));
    }

    /** copiedImage(): return the cached copy, or flush the context and copy
        the buffer when there is no copy yet and a buffer can be had. */
    method CopiedImage(memoryAvailable: bool) returns (image: Option<Image>)
      requires Valid()
      modifies this`hasCreatedImageBuffer, this`imageBuffer, this`copiedImage, this`nextId, this`contextCalls
      ensures Valid()
      ensures image == copiedImage
      ensures old(copiedImage).Some? ==>
        copiedImage == old(copiedImage) && Store() == old(Store()) &&
        nextId == old(nextId) && contextCalls == old(contextCalls)
      ensures old(copiedImage).None? ==>
        Store() == AccessBuffer(old(Store()), size, skia, memoryAvailable, old(nextId)) &&
        (imageBuffer.None? ==> copiedImage.None? && contextCalls == old(contextCalls) && nextId == old(nextId)) &&
        (imageBuffer.Some? ==>
           copiedImage == Some(Image(nextId - 1, imageBuffer.value.id)) &&
           nextId == (if old(imageBuffer).None? then old(nextId) + 2 else old(nextId) + 1) &&
           contextCalls == old(contextCalls) + FlushCalls(context))
    {
      if copiedImage.None? {
        var b := Buffer(memoryAvailable);
        if b.Some? {
          if context.Some? {
            contextCalls := contextCalls + [PaintResultsToCanvas];
          }
          copiedImage := Some(Image(nextId, b.value.id));
          nextId := nextId + 1;
        }
      }
      image := copiedImage;
    }

    method ClearCopiedImage()
      requires Valid()
      modifies this`copiedImage
      ensures Valid()
      ensures copiedImage.None?
    {
      copiedImage := None;
    }

    /** makePresentationCopy: copy the buffer once, when there is no presented
        image yet. The element dereferences the buffer without a check, so a
        caller must only ask when a buffer is available. */
    method MakePresentationCopy(memoryAvailable: bool)
      requires Valid()
      requires presentedImage.None? ==> AccessBuffer(Store(), size, skia, memoryAvailable, nextId).buffer.Some?
      modifies this`hasCreatedImageBuffer, this`imageBuffer, this`presentedImage, this`nextId
      ensures Valid()
      ensures old(presentedImage).Some? ==> unchanged(this)
      ensures old(presentedImage).None? ==>
        Store() == AccessBuffer(old(Store()), size, skia, memoryAvailable, old(nextId)) &&
        imageBuffer.Some? && presentedImage == Some(Image(nextId - 1, imageBuffer.value.id)) &&
        nextId == (if old(imageBuffer).None? then old(nextId) + 2 else old(nextId) + 1)
    {
      if presentedImage.None? {
        var b := Buffer(memoryAvailable);
        presentedImage := Some(Image(nextId, b.value.id));
        nextId := nextId + 1;
      }
    }

    method ClearPresentationCopy()
      requires Valid()
      modifies this`presentedImage
      ensures Valid()
      ensures presentedImage.None?
    {
      presentedImage := None;
    }

    /** paint: the dirty rectangle is cleared first, whatever happens next.
        Unless painting is disabled or the context paints elsewhere, the
        context is flushed and, when a buffer exists and is not recording,
        the presented image, the copied image or the live buffer is drawn.
        The parameters are what the graphics context, the rendering context
        and the image buffer answer when asked. */
    method Paint(paintingDisabled: bool, paintsIntoCanvasBuffer: bool, drawsUsingRecording: bool, drawsUsingCopy: bool)
      returns (drawn: PaintSource)
      requires Valid()
      modifies this`dirtyRect, this`hasCreatedImageBuffer, this`imageBuffer, this`copiedImage, this`nextId, this`contextCalls
      ensures Valid()
      ensures dirtyRect == EmptyRect
      ensures Store() == old(Store())
      ensures paintingDisabled || (context.Some? && !paintsIntoCanvasBuffer) ==>
        drawn == NothingDrawn && copiedImage == old(copiedImage) && nextId == old(nextId) &&
        contextCalls == old(contextCalls)
      ensures !paintingDisabled && (context.None? || paintsIntoCanvasBuffer) ==>
        if imageBuffer.None? then
          drawn == NothingDrawn && copiedImage == old(copiedImage) && nextId == old(nextId) &&
          contextCalls == old(contextCalls) + FlushCalls(context) + CompositeCalls(context)
        else if drawsUsingRecording then
          drawn == NothingDrawn && copiedImage == old(copiedImage) && nextId == old(nextId) &&
          contextCalls == old(contextCalls) + FlushCalls(context)
        else if presentedImage.Some? then
          drawn == DrewPresented(presentedImage.value) && copiedImage == old(copiedImage) && nextId == old(nextId) &&
          contextCalls == old(contextCalls) + FlushCalls(context) + CompositeCalls(context)
        else if drawsUsingCopy then
          copiedImage.Some? && drawn == DrewCopy(copiedImage.value) &&
          copiedImage.value.source == imageBuffer.value.id &&
          if old(copiedImage).Some? then
            copiedImage == old(copiedImage) && nextId == old(nextId) &&
            contextCalls == old(contextCalls) + FlushCalls(context) + CompositeCalls(context)
          else
            copiedImage.value.id == old(nextId) && nextId == old(nextId) + 1 &&
            contextCalls == old(contextCalls) + FlushCalls(context) + FlushCalls(context) + CompositeCalls(context)
        else
          drawn == DrewBuffer(imageBuffer.value) && copiedImage == old(copiedImage) && nextId == old(nextId) &&
          contextCalls == old(contextCalls) + FlushCalls(context) + CompositeCalls(context)
    {
      dirtyRect := EmptyRect;
      drawn := NothingDrawn;
      if paintingDisabled {
        return;
      }
      if context.Some? {
        if !paintsIntoCanvasBuffer {
          return;
        }
        contextCalls := contextCalls + [PaintResultsToCanvas];
      }
      if hasCreatedImageBuffer {
        // buffer() makes no new attempt once one was made
        var b := imageBuffer;
        if b.Some? {
          if drawsUsingRecording {
            return;
          }
          if presentedImage.Some? {
            drawn := DrewPresented(presentedImage.value);
          } else if drawsUsingCopy {
            var image := CopiedImage(false);
            drawn := DrewCopy(image.value);
          } else {
            drawn := DrewBuffer(b.value);
          }
        }
      }
      if context.Some? && context.value.kind == ThreeD {
        contextCalls := contextCalls + [MarkLayerComposited];
      }
    }

    // -------------------------------------------------------------------
    // export

    /** toDataURL, up to the encoder: a canvas tainted by cross-origin data
        fails with SECURITY_ERR before anything else; an empty canvas or one
        without a buffer yields "data:,". Otherwise the MIME type is the
        requested one, or PNG when it is missing or unsupported, and a 3D
        context is asked to read its pixels back (getImageData); when it hands
        them back (`readbackSucceeds`) they are encoded, otherwise the context
        flushes into the buffer (makeRenderingResultsAvailable) and the buffer
        is encoded. */
    method ToDataURL(mimeType: Option<string>, supportedTypes: set<string>, memoryAvailable: bool, readbackSucceeds: bool)
      returns (r: ExportResult)
      requires Valid()
      modifies this`hasCreatedImageBuffer, this`imageBuffer, this`nextId, this`contextCalls
      ensures Valid()
      ensures !originClean ==> r == SecurityError && unchanged(this)
      ensures originClean && size.IsEmpty() ==> r == DataUrl("data:,") && unchanged(this)
      ensures originClean && !size.IsEmpty() ==>
        Store() == AccessBuffer(old(Store()), size, skia, memoryAvailable, old(nextId)) &&
        nextId == (if old(imageBuffer).None? && imageBuffer.Some? then old(nextId) + 1 else old(nextId))
      ensures originClean && !size.IsEmpty() && imageBuffer.None? ==>
        r == DataUrl("data:,") && contextCalls == old(contextCalls)
      ensures originClean && !size.IsEmpty() && imageBuffer.Some? ==>
        var readBack := context.Some? && context.value.kind == ThreeD && readbackSucceeds;
        var m := ExportMimeType(mimeType, supportedTypes);
        r == (if readBack then EncodeImageData(m) else EncodeBuffer(m)) &&
        contextCalls == old(contextCalls) + ReadbackCalls(context) + (if readBack then [] else FlushCalls(context))
    {
      if !originClean {
        return SecurityError;
      }
      if size.IsEmpty() {
        return DataUrl("data:,");
      }
      var b := Buffer(memoryAvailable);
      if b.None? {
        return DataUrl("data:,");
      }
      var m := ExportMimeType(mimeType, supportedTypes);
      contextCalls := contextCalls + ReadbackCalls(context);
      if context.Some? && context.value.kind == ThreeD && readbackSucceeds {
        return EncodeImageData(m);
      }
      contextCalls := contextCalls + FlushCalls(context);
      r := EncodeBuffer(m);
    }

    // -------------------------------------------------------------------
    // GPU rendering flag

    method EnableGpuRendering()
      requires Valid()
      modifies this`gpuRendering
      ensures Valid()
      ensures gpuRendering
    {
      if gpuRendering {
        return;
      }
      gpuRendering := true;
    }

    method DisableGpuRendering()
      requires Valid()
      modifies this`gpuRendering
      ensures Valid()
      ensures !gpuRendering
    {
      if !gpuRendering {
        return;
      }
      gpuRendering := false;
    }
  }

  /** A drawing invalidates the cached copy: a fresh canvas hands out a copy,
      then the same copy until something is drawn, then a new one. */
  method CopyFollowsDrawing() returns (first: Option<Image>, second: Option<Image>, third: Option<Image>)
    ensures first.Some? && second.Some? && third == second
    ensures first != second && first.value.source == second.value.source
  {
    var canvas := new Canvas(true);
    first := canvas.CopiedImage(true);
    canvas.DidDraw(Rect(0, 0, 10, 10), None);
    second := canvas.CopiedImage(true);
    third := canvas.CopiedImage(true);
  }

  /** The first context request decides the element's kind: later requests of
      the same kind get the same context, requests of the other kind get none. */
  method FirstContextWins() returns (first: Option<RenderingContext>, other: Option<RenderingContext>, again: Option<RenderingContext>)
    ensures first.Some? && first.value.kind == TwoD
    ensures other.None? && again == first
  {
    var canvas := new Canvas(true);
    first := canvas.GetContext("2d", true, true);
    other := canvas.GetContext("experimental-webgl", true, true);
    again := canvas.GetContext("2d", true, true);
  }
}
