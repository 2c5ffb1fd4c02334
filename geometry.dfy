/** Integer geometry of the canvas: sizes and rectangles with the semantics of
    WebCore's IntSize/FloatRect (coordinates are integers here), 32-bit integer
    clamping, and the conversion of a logical size or rectangle into a validated
    device-pixel size (HTMLCanvasElement::convertLogicalToDevice and
    convertToValidDeviceSize). The page scale factor is 1, as the Android build
    fixes it, so logical and device units coincide. */
module Geometry {

  const IntMin: int := -0x8000_0000
  const IntMax: int := 0x7fff_ffff

  /** Largest canvas area, in pixels, that a backing store may have. */
  const MaxCanvasArea: int := 32768 * 8192
  /** Largest width or height the Skia backend accepts. */
  const MaxSkiaDim: int := 32767

  predicate InInt32(v: int) { IntMin <= v <= IntMax }

  /** clampToInteger: saturate to the range of a C++ int. */
  function Clamp32(v: int): (c: int)
    ensures InInt32(c)
    ensures InInt32(v) ==> c == v
    ensures v < IntMin ==> c == IntMin
    ensures v > IntMax ==> c == IntMax
  {
    if v < IntMin then IntMin else if v > IntMax then IntMax else v
  }

  /** Two's-complement wrap-around of a C++ int computation. */
  function Wrap32(v: int): (w: int)
    ensures InInt32(w)
    ensures InInt32(v) ==> w == v
  {
    (v - IntMin) % 0x1_0000_0000 + IntMin
  }

  datatype IntSize = IntSize(width: int, height: int) {
    /** IntSize::isEmpty */
    predicate IsEmpty() { width <= 0 || height <= 0 }
  }

  const EmptySize: IntSize := IntSize(0, 0)

  datatype Rect = Rect(x: int, y: int, width: int, height: int) {
    function MaxX(): int { x + width }
    function MaxY(): int { y + height }

    /** FloatRect::isEmpty */
    predicate IsEmpty() { width <= 0 || height <= 0 }

    /** The unit pixel whose top-left corner is (px, py) lies inside this rectangle. */
    predicate HasPoint(px: int, py: int) {
      x <= px < MaxX() && y <= py < MaxY()
    }

    /** FloatRect::contains(const FloatRect&): edge-wise containment. */
    predicate Contains(other: Rect) {
      x <= other.x && other.MaxX() <= MaxX() && y <= other.y && other.MaxY() <= MaxY()
    }
  }

  /** The default-constructed FloatRect, which is also what `intersect` leaves
      behind when two rectangles do not overlap. */
  const EmptyRect: Rect := Rect(0, 0, 0, 0)

  function Min(a: int, b: int): int { if a <= b then a else b }
  function Max(a: int, b: int): int { if a <= b then b else a }

  /** Edge-wise containment is sound: every pixel of the inner rectangle is a
      pixel of the outer one. */
  lemma ContainsCovers(outer: Rect, inner: Rect)
    requires outer.Contains(inner)
    ensures forall px, py :: inner.HasPoint(px, py) ==> outer.HasPoint(px, py)
  {
  }

  /** FloatRect::intersect. The result holds exactly the pixels the two
      rectangles share, and a rectangle without pixels is the clean empty one. */
  function Intersect(a: Rect, b: Rect): (r: Rect)
    ensures forall px, py :: r.HasPoint(px, py) <==> a.HasPoint(px, py) && b.HasPoint(px, py)
    ensures r.IsEmpty() ==> r == EmptyRect
    ensures !r.IsEmpty() ==> a.Contains(r) && b.Contains(r)
  {
    var l := Max(a.x, b.x);
    var t := Max(a.y, b.y);
    var rt := Min(a.MaxX(), b.MaxX());
    var bm := Min(a.MaxY(), b.MaxY());
    if l >= rt || t >= bm then EmptyRect else Rect(l, t, rt - l, bm - t)
  }

  /** FloatRect::unite. An empty operand is ignored; otherwise the result is the
      bounding box, so no pixel of either operand is lost. */
  function Unite(a: Rect, b: Rect): (r: Rect)
    ensures forall px, py :: a.HasPoint(px, py) || b.HasPoint(px, py) ==> r.HasPoint(px, py)
    ensures !a.IsEmpty() ==> r.Contains(a)
    ensures !b.IsEmpty() ==> r.Contains(b)
    ensures a.IsEmpty() && !b.IsEmpty() ==> r == b
    ensures b.IsEmpty() ==> r == a
  {
    if b.IsEmpty() then a
    else if a.IsEmpty() then b
    else
      var l := Min(a.x, b.x);
      var t := Min(a.y, b.y);
      Rect(l, t, Max(a.MaxX(), b.MaxX()) - l, Max(a.MaxY(), b.MaxY()) - t)
  }

  /** The union is the smallest rectangle holding a non-empty rectangle and
      whatever pixels the other operand has. */
  lemma UniteIsSmallest(a: Rect, b: Rect, c: Rect)
    requires !b.IsEmpty() && c.Contains(b)
    requires !a.IsEmpty() ==> c.Contains(a)
    ensures c.Contains(Unite(a, b))
  {
  }

  /** convertToValidDeviceSize: a device size is kept only when both sides are
      at least 1, the area is within MaxCanvasArea and, on Skia, neither side
      exceeds MaxSkiaDim; otherwise the empty size is returned. */
  function ValidDeviceSize(width: int, height: int, skia: bool): (s: IntSize)
    ensures s == EmptySize || s == IntSize(width, height)
    ensures s.IsEmpty() <==>
      width < 1 || height < 1 || width * height > MaxCanvasArea ||
      (skia && (width > MaxSkiaDim || height > MaxSkiaDim))
    ensures !s.IsEmpty() ==> 1 <= s.width && 1 <= s.height && s.width * s.height <= MaxCanvasArea
    ensures !s.IsEmpty() && skia ==> s.width <= MaxSkiaDim && s.height <= MaxSkiaDim
    // four bytes per pixel of an accepted size still fit in a C++ int
    ensures !s.IsEmpty() ==> 4 * (s.width * s.height) <= IntMax
  {
    if width < 1 || height < 1 || width * height > MaxCanvasArea then EmptySize
    else if skia && (width > MaxSkiaDim || height > MaxSkiaDim) then EmptySize
    else IntSize(width, height)
  }

  /** convertLogicalToDevice(FloatSize) with a scale factor of 1: the device
      size of a logical size is the size itself or, when it is not acceptable,
      the empty size. */
  function DeviceSize(logical: IntSize, skia: bool): (s: IntSize)
    ensures s == EmptySize || s == IntSize(Clamp32(logical.width), Clamp32(logical.height))
    ensures InInt32(logical.width) && InInt32(logical.height) ==> s == EmptySize || s == logical
    ensures logical.IsEmpty() ==> s == EmptySize
    ensures !s.IsEmpty() ==> s.width * s.height <= MaxCanvasArea
    // an in-range size is accepted exactly when it passes validation
    ensures InInt32(logical.width) && InInt32(logical.height) ==>
      (s.IsEmpty() <==> (logical.width < 1 || logical.height < 1 || logical.width * logical.height > MaxCanvasArea ||
        (skia && (logical.width > MaxSkiaDim || logical.height > MaxSkiaDim))))
  {
    ValidDeviceSize(Clamp32(logical.width), Clamp32(logical.height), skia)
  }

  /** convertLogicalToDevice(FloatRect) AS WRITTEN: the four edges are clamped
      to the int range, but `right - left` and `bottom - top` are then computed
      in int, where they can overflow. */
  function DeviceRectAsWritten(logical: Rect, skia: bool): (d: Rect)
    ensures d.x == Clamp32(logical.x) && d.y == Clamp32(logical.y)
    // whatever the wrapped differences are, the size passed validation
    ensures (d.width == 0 && d.height == 0) ||
            (1 <= d.width && 1 <= d.height && d.width * d.height <= MaxCanvasArea)
  {
    var left := Clamp32(logical.x);
    var top := Clamp32(logical.y);
    var right := Clamp32(logical.MaxX());
    var bottom := Clamp32(logical.MaxY());
    var s := ValidDeviceSize(Wrap32(right - left), Wrap32(bottom - top), skia);
    Rect(left, top, s.width, s.height)
  }

  /** An inverted rectangle (negative width) whose edges lie inside the int
      range but more than 2^31 apart: `right - left` wraps to 256, so the
      as-written conversion yields a valid 256x1 device rectangle although the
      logical rectangle has no area. */
  lemma DeviceRectAsWrittenAcceptsInvertedRect()
    ensures var r := Rect(2147483520, 0, -4294967040, 1);
      r.IsEmpty() && InInt32(r.x) && InInt32(r.MaxX()) &&
      DeviceRectAsWritten(r, true) == Rect(2147483520, 0, 256, 1)
  {
  }

  /** As long as the clamped edges are less than 2^31 apart the wrap-around
      never happens and the as-written conversion is the intended one. */
  lemma DeviceRectAsWrittenWithoutOverflow(logical: Rect, skia: bool)
    requires InInt32(Clamp32(logical.MaxX()) - Clamp32(logical.x))
    requires InInt32(Clamp32(logical.MaxY()) - Clamp32(logical.y))
    ensures DeviceRectAsWritten(logical, skia) == DeviceRect(logical, skia)
  {
  }

  /** convertLogicalToDevice(FloatRect) as intended: the edge differences are
      taken without overflow, so a rectangle without area never yields a
      device size, and an in-range acceptable rectangle maps to itself. */
  function DeviceRect(logical: Rect, skia: bool): (d: Rect)
    ensures d.x == Clamp32(logical.x) && d.y == Clamp32(logical.y)
    ensures logical.IsEmpty() ==> d.width == 0 && d.height == 0
    ensures !d.IsEmpty() ==> d.width * d.height <= MaxCanvasArea
    ensures InInt32(logical.x) && InInt32(logical.y) && InInt32(logical.MaxX()) && InInt32(logical.MaxY())
      ==> d.IsEmpty() || d == logical
    // an in-range rectangle is accepted exactly when its size passes validation
    ensures InInt32(logical.x) && InInt32(logical.y) && InInt32(logical.MaxX()) && InInt32(logical.MaxY()) ==>
      (d.IsEmpty() <==> (logical.width < 1 || logical.height < 1 || logical.width * logical.height > MaxCanvasArea ||
        (skia && (logical.width > MaxSkiaDim || logical.height > MaxSkiaDim))))
  {
    var left := Clamp32(logical.x);
    var top := Clamp32(logical.y);
    var right := Clamp32(logical.MaxX());
    var bottom := Clamp32(logical.MaxY());
    var s := ValidDeviceSize(right - left, bottom - top, skia);
    Rect(left, top, s.width, s.height)
  }
}
