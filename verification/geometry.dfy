/** Layout arithmetic over exact reals: the fit-to-box scale and the bounding
    box of the slides' scaled extents. */
module Geometry {
  import opened Types

  function Min(a: real, b: real): real
  {
    if a <= b then a else b
  }

  /** scaleToBox: the uniform "contain" scale of a source box into a destination box. */
  function ScaleToBox(destWidth: real, destHeight: real, sourceWidth: real, sourceHeight: real): (s: real)
    requires sourceWidth > 0.0 && sourceHeight > 0.0
    ensures s * sourceWidth <= destWidth && s * sourceHeight <= destHeight
    ensures s * sourceWidth == destWidth || s * sourceHeight == destHeight
  {
    Min(destWidth / sourceWidth, destHeight / sourceHeight)
  }

  /** No larger uniform scale fits: scaleToBox is the largest one that does. */
  lemma ScaleToBoxIsLargest(destWidth: real, destHeight: real, sourceWidth: real, sourceHeight: real, t: real)
    requires sourceWidth > 0.0 && sourceHeight > 0.0
    requires t * sourceWidth <= destWidth && t * sourceHeight <= destHeight
    ensures t <= ScaleToBox(destWidth, destHeight, sourceWidth, sourceHeight)
  {
  }

  /** The scaled horizontal and vertical extents boundingBox computes for a slide. */
  function Left(s: Slide): real { (s.x - s.width / 2.0) * s.scale }
  function Right(s: Slide): real { (s.x + s.width / 2.0) * s.scale }
  function Top(s: Slide): real { (s.y - s.height / 2.0) * s.scale }
  function Bottom(s: Slide): real { (s.y + s.height / 2.0) * s.scale }

  /** The four running bounds of boundingBox's loop. */
  datatype Extent = Extent(minX: real, maxX: real, minY: real, maxY: real)

  /** The box boundingBox returns: origin, size and centre. */
  datatype Box = Box(x: real, y: real, width: real, height: real, centerX: real, centerY: real)

  /** The extent boundingBox starts from: the origin. */
  const Origin: Extent := Extent(0.0, 0.0, 0.0, 0.0)

  /** One iteration of boundingBox's loop, as written: per axis, the maximum is
      only looked at when the minimum did not move (`else if`). */
  function Widen(e: Extent, s: Slide): (e': Extent)
    ensures e'.minX <= e.minX && e.maxX <= e'.maxX && e'.minY <= e.minY && e.maxY <= e'.maxY
    ensures e'.minX == e.minX || e'.maxX == e.maxX
    ensures e'.minY == e.minY || e'.maxY == e.maxY
  {
    var (minX, maxX) :=
      if Left(s) < e.minX then (Left(s), e.maxX)
      else if Right(s) > e.maxX then (e.minX, Right(s))
      else (e.minX, e.maxX);
    var (minY, maxY) :=
      if Top(s) < e.minY then (Top(s), e.maxY)
      else if Bottom(s) > e.maxY then (e.minY, Bottom(s))
      else (e.minY, e.maxY);
    Extent(minX, maxX, minY, maxY)
  }

  /** The extent boundingBox's loop has reached after the slides `objs`. */
  function Accumulate(objs: seq<Slide>): (e: Extent)
    ensures e.minX <= 0.0 <= e.maxX && e.minY <= 0.0 <= e.maxY
  {
    if |objs| == 0 then Origin else Widen(Accumulate(objs[..|objs| - 1]), objs[|objs| - 1])
  }

  /** The extent reported as a box. */
  function BoxOf(e: Extent): (b: Box)
    requires e.minX <= e.maxX && e.minY <= e.maxY
    ensures b.width >= 0.0 && b.height >= 0.0
    ensures b.x == e.minX && b.x + b.width == e.maxX && b.y == e.minY && b.y + b.height == e.maxY
    ensures b.centerX == b.x + b.width / 2.0 && b.centerY == b.y + b.height / 2.0
  {
    Box(e.minX, e.minY, e.maxX - e.minX, e.maxY - e.minY, (e.minX + e.maxX) / 2.0, (e.minY + e.maxY) / 2.0)
  }

  /** The `else if` lets a slide that straddles the origin escape the box: its
      right edge lies outside what boundingBox reports. */
  lemma StraddlingSlideEscapes()
    ensures var s := Slide(0, 0, 0, 0.0, 0.0, 2.0, 2.0, 1.0, 1.0);
            Right(s) > Accumulate([s]).maxX && Bottom(s) > Accumulate([s]).maxY
  {
  }

  /** One iteration of the corrected loop: all four bounds are compared independently. */
  function Cover(e: Extent, s: Slide): (e': Extent)
    ensures e'.minX <= e.minX && e.maxX <= e'.maxX && e'.minY <= e.minY && e.maxY <= e'.maxY
    ensures e'.minX <= Left(s) && Right(s) <= e'.maxX && e'.minY <= Top(s) && Bottom(s) <= e'.maxY
  {
    Extent(Min(e.minX, Left(s)), if Right(s) > e.maxX then Right(s) else e.maxX,
           Min(e.minY, Top(s)), if Bottom(s) > e.maxY then Bottom(s) else e.maxY)
  }

  /** The corrected bounding box: it contains the origin and every slide's
      scaled extent. */
  function Covering(objs: seq<Slide>): (e: Extent)
    ensures e.minX <= 0.0 <= e.maxX && e.minY <= 0.0 <= e.maxY
    ensures forall i :: 0 <= i < |objs| ==>
              e.minX <= Left(objs[i]) && Right(objs[i]) <= e.maxX &&
              e.minY <= Top(objs[i]) && Bottom(objs[i]) <= e.maxY
  {
    if |objs| == 0 then Origin
    else
      var init := objs[..|objs| - 1];
      assert forall i :: 0 <= i < |init| ==> init[i] == objs[i];
      Cover(Covering(init), objs[|objs| - 1])
  }

  /** The corrected box is the smallest one containing the origin and every
      slide: each of its bounds is the origin or some slide's edge. */
  lemma {:induction false} CoveringIsTight(objs: seq<Slide>)
    ensures var e := Covering(objs);
            (e.minX == 0.0 || exists i :: 0 <= i < |objs| && e.minX == Left(objs[i])) &&
            (e.maxX == 0.0 || exists i :: 0 <= i < |objs| && e.maxX == Right(objs[i])) &&
            (e.minY == 0.0 || exists i :: 0 <= i < |objs| && e.minY == Top(objs[i])) &&
            (e.maxY == 0.0 || exists i :: 0 <= i < |objs| && e.maxY == Bottom(objs[i]))
  {
    if |objs| > 0 {
      var init := objs[..|objs| - 1];
      assert forall i :: 0 <= i < |init| ==> init[i] == objs[i];
      CoveringIsTight(init);
    }
  }
}
