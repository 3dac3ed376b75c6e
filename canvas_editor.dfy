/** The mask editor component (components/CanvasEditor.tsx): the pan and
    zoom transform of the viewport, the mapping from pointer positions to
    mask pixels, the painting and erasing of the mask, and the gesture
    handlers that drive them. Layout values read from the page (bounding
    rectangles, the container width) and the pointer and keyboard state are
    inputs. The mask canvas is a set of covered pixels. */
module Canvas {
  import opened Nullable
  import opened EditorTypes

  datatype Point = Point(x: real, y: real)

  /** The CSS transform `translate(x px, y px) scale(scale)` of the layer
      holding the two canvases, with its origin at the top left corner. */
  datatype Transform = Transform(x: real, y: real, scale: real)

  /** A bounding client rectangle. */
  datatype Rect = Rect(left: real, top: real, width: real, height: real)

  /** A pixel of the mask canvas, by column and row. */
  type Pixel = (int, int)

  /** What is handed to the parent on every emission: the PNG export of the
      mask canvas, here its size and its covered pixels. */
  datatype MaskImage = MaskImage(width: int, height: int, pixels: set<Pixel>)

  const MinScale: real := 0.1
  const MaxScale: real := 20.0
  /** Scale change per wheel unit per unit of zoom speed. */
  const WheelStep: real := 0.0005
  /** Scale change of the zoom-in and zoom-out buttons. */
  const ButtonStep: real := 0.5
  /** The pan sensitivity at which a drag moves the content one for one. */
  const NeutralPanSensitivity: real := 5.0
  const Identity: Transform := Transform(0.0, 0.0, 1.0)
  /** The size of an HTML canvas whose size was never set. */
  const DefaultCanvasWidth: int := 300
  const DefaultCanvasHeight: int := 150

  predicate InScaleRange(s: real)
  {
    MinScale <= s <= MaxScale
  }

  function Min(a: real, b: real): real
  {
    if a <= b then a else b
  }

  function Max(a: real, b: real): real
  {
    if a >= b then a else b
  }

  // ---------------------------------------------------------------------
  // Zoom and pan
  // ---------------------------------------------------------------------

  /** The scale after a wheel event:
      `Math.min(Math.max(scale + (-deltaY) * zoomSpeed * 0.0005, 0.1), 20)`.
      It is always in range, it is the unclamped value when that is in
      range and the nearer bound otherwise, and scrolling down with a positive speed never zooms in. */
  function WheelScale(scale: real, deltaY: real, zoomSpeed: real): (r: real)
    ensures InScaleRange(r)
    ensures var v := scale - deltaY * zoomSpeed * WheelStep;
            && (InScaleRange(v) ==> r == v)
            && (v < MinScale ==> r == MinScale)
            && (v > MaxScale ==> r == MaxScale)
    ensures InScaleRange(scale) && deltaY >= 0.0 && zoomSpeed >= 0.0 ==> r <= scale
    ensures InScaleRange(scale) && deltaY <= 0.0 && zoomSpeed >= 0.0 ==> r >= scale
  {
    var speedFactor := zoomSpeed * WheelStep;
    var delta := -deltaY;
    assert delta * speedFactor == -(deltaY * zoomSpeed * WheelStep);
    assert deltaY >= 0.0 && zoomSpeed >= 0.0 ==> deltaY * zoomSpeed >= 0.0;
    assert deltaY <= 0.0 && zoomSpeed >= 0.0 ==> deltaY * zoomSpeed <= 0.0;
    Min(Max(scale + delta * speedFactor, MinScale), MaxScale)
  }

  /** The content coordinate (along one axis) shown at offset `m` from the
      layer's reference corner under offset `offset` and zoom `scale`. */
  function ContentAt(m: real, offset: real, scale: real): real
    requires scale > 0.0
  {
    (m - offset) / scale
  }

  /** Zooming to `newScale` about the pointer at `mouse`, an offset from
      the viewport's corner. */
  function ZoomAt(t: Transform, mouse: Point, newScale: real): Transform
    requires t.scale > 0.0
  {
    var ratio := newScale / t.scale;
    Transform(mouse.x - (mouse.x - t.x) * ratio, mouse.y - (mouse.y - t.y) * ratio, newScale)
  }

  /** The content point under the pointer is the same before and after the
      zoom, measured from the corner the pointer offset is taken from. */
  lemma ZoomAtKeepsPointUnderPointer(t: Transform, mouse: Point, newScale: real)
    requires t.scale > 0.0 && newScale > 0.0
    ensures var r := ZoomAt(t, mouse, newScale);
            && r.scale == newScale
            && ContentAt(mouse.x, r.x, newScale) == ContentAt(mouse.x, t.x, t.scale)
            && ContentAt(mouse.y, r.y, newScale) == ContentAt(mouse.y, t.y, t.scale)
  {
    FixedPointOneAxis(mouse.x, t.x, t.scale, newScale);
    FixedPointOneAxis(mouse.y, t.y, t.scale, newScale);
  }

  lemma FixedPointOneAxis(m: real, offset: real, scale: real, newScale: real)
    requires scale > 0.0 && newScale > 0.0
    ensures ContentAt(m, m - (m - offset) * (newScale / scale), newScale) == ContentAt(m, offset, scale)
  {
    var d := m - offset;
    var ratio := newScale / scale;
    assert ratio * scale == newScale;
    assert m - (m - d * ratio) == d * ratio;
    assert (d * ratio) / newScale == d / scale by {
      assert (d * ratio) * scale == d * newScale;
    }
  }

  /** The pointer offset is taken from the viewport's border box while the
      layer sits inside its border: seen from the layer's own corner, a
      pointer `inset` pixels further in than the border box corner sees its
      content point move by `inset * (1/scale - 1/newScale)`, so the point
      under the pointer is exactly fixed only when the inset is zero or the
      scale does not change. */
  lemma ZoomAtInLayerFrame(t: Transform, mouse: Point, newScale: real, inset: real)
    requires t.scale > 0.0 && newScale > 0.0
    ensures var r := ZoomAt(t, mouse, newScale);
            ContentAt(mouse.x - inset, r.x, newScale) - ContentAt(mouse.x - inset, t.x, t.scale)
              == inset * (1.0 / t.scale - 1.0 / newScale)
  {
    var r := ZoomAt(t, mouse, newScale);
    FixedPointOneAxis(mouse.x, t.x, t.scale, newScale);
    assert ContentAt(mouse.x - inset, r.x, newScale) == ContentAt(mouse.x, r.x, newScale) - inset / newScale;
    assert ContentAt(mouse.x - inset, t.x, t.scale) == ContentAt(mouse.x, t.x, t.scale) - inset / t.scale;
  }

  /** A pan move: the offset moves by the pointer's displacement times
      `panSensitivity / 5`; the scale is kept. */
  function Pan(t: Transform, last: Point, client: Point, panSensitivity: real): Transform
  {
    var factor := panSensitivity / NeutralPanSensitivity;
    Transform(t.x + (client.x - last.x) * factor, t.y + (client.y - last.y) * factor, t.scale)
  }

  /** A pan keeps the scale, and the content grabbed under the pointer
      stays under it exactly when the sensitivity is the neutral 5 (for a
      move that changes the coordinate). */
  lemma PanKeepsGrip(t: Transform, last: Point, client: Point, panSensitivity: real)
    requires t.scale > 0.0
    ensures Pan(t, last, client, panSensitivity).scale == t.scale
    ensures client.x != last.x ==>
              (ContentAt(client.x, Pan(t, last, client, panSensitivity).x, t.scale) == ContentAt(last.x, t.x, t.scale)
               <==> panSensitivity == NeutralPanSensitivity)
    ensures client.y != last.y ==>
              (ContentAt(client.y, Pan(t, last, client, panSensitivity).y, t.scale) == ContentAt(last.y, t.y, t.scale)
               <==> panSensitivity == NeutralPanSensitivity)
  {
    if client.x != last.x {
      GripOneAxis(t.x, last.x, client.x, t.scale, panSensitivity);
    }
    if client.y != last.y {
      GripOneAxis(t.y, last.y, client.y, t.scale, panSensitivity);
    }
  }

  lemma GripOneAxis(offset: real, last: real, client: real, scale: real, sensitivity: real)
    requires scale > 0.0 && client != last
    ensures ContentAt(client, offset + (client - last) * (sensitivity / NeutralPanSensitivity), scale)
              == ContentAt(last, offset, scale)
            <==> sensitivity == NeutralPanSensitivity
  {
    var d := client - last;
    var f := sensitivity / NeutralPanSensitivity;
    var after := client - (offset + d * f);
    var before := last - offset;
    assert after - before == d * (1.0 - f);
    assert after / scale == before / scale <==> after == before by {
      assert after / scale * scale == after;
      assert before / scale * scale == before;
    }
    assert d * (1.0 - f) == 0.0 <==> f == 1.0;
  }

  /** The zoom-in button: `Math.min(scale + 0.5, 20)`. */
  function ZoomInScale(scale: real): (r: real)
    ensures InScaleRange(scale) ==> InScaleRange(r) && r >= scale
    ensures scale + ButtonStep <= MaxScale ==> r == scale + ButtonStep
    ensures r == MaxScale || r == scale + ButtonStep
  {
    Min(scale + ButtonStep, MaxScale)
  }

  /** The zoom-out button: `Math.max(scale - 0.5, 0.1)`. */
  function ZoomOutScale(scale: real): (r: real)
    ensures InScaleRange(scale) ==> InScaleRange(r) && r <= scale
    ensures scale - ButtonStep >= MinScale ==> r == scale - ButtonStep
    ensures r == MinScale || r == scale - ButtonStep
  {
    Max(scale - ButtonStep, MinScale)
  }

  /** Zooming out with the button undoes zooming in, as long as neither
      hits a bound. */
  lemma ZoomButtonsInverse(scale: real)
    requires MinScale + ButtonStep <= scale + ButtonStep <= MaxScale
    ensures ZoomOutScale(ZoomInScale(scale)) == scale
  {
  }

  // ---------------------------------------------------------------------
  // Coordinates
  // ---------------------------------------------------------------------

  /** `getCoordinates`: a pointer position mapped into the mask canvas's
      own pixel grid, from the canvas's on-screen rectangle. */
  function ScreenToCanvas(client: Point, rect: Rect, canvasWidth: int, canvasHeight: int): Point
    requires rect.width > 0.0 && rect.height > 0.0
  {
    var scaleX := canvasWidth as real / rect.width;
    var scaleY := canvasHeight as real / rect.height;
    Point((client.x - rect.left) * scaleX, (client.y - rect.top) * scaleY)
  }

  /** Where a point of the canvas's pixel grid appears on screen. */
  function CanvasToScreen(p: Point, rect: Rect, canvasWidth: int, canvasHeight: int): Point
    requires canvasWidth > 0 && canvasHeight > 0
  {
    Point(rect.left + p.x * (rect.width / canvasWidth as real),
          rect.top + p.y * (rect.height / canvasHeight as real))
  }

  /** The rectangle's corners map to the canvas's corners, and screen and
      canvas coordinates convert into each other both ways. */
  lemma ScreenToCanvasCorners(rect: Rect, canvasWidth: int, canvasHeight: int)
    requires rect.width > 0.0 && rect.height > 0.0
    ensures ScreenToCanvas(Point(rect.left, rect.top), rect, canvasWidth, canvasHeight) == Point(0.0, 0.0)
    ensures ScreenToCanvas(Point(rect.left + rect.width, rect.top + rect.height), rect, canvasWidth, canvasHeight)
              == Point(canvasWidth as real, canvasHeight as real)
  {
    assert rect.width * (canvasWidth as real / rect.width) == canvasWidth as real;
    assert rect.height * (canvasHeight as real / rect.height) == canvasHeight as real;
  }

  lemma ScreenCanvasRoundTrip(client: Point, p: Point, rect: Rect, canvasWidth: int, canvasHeight: int)
    requires rect.width > 0.0 && rect.height > 0.0 && canvasWidth > 0 && canvasHeight > 0
    ensures CanvasToScreen(ScreenToCanvas(client, rect, canvasWidth, canvasHeight), rect, canvasWidth, canvasHeight) == client
    ensures ScreenToCanvas(CanvasToScreen(p, rect, canvasWidth, canvasHeight), rect, canvasWidth, canvasHeight) == p
  {
    RoundTripOneAxis(client.x, p.x, rect.left, rect.width, canvasWidth as real);
    RoundTripOneAxis(client.y, p.y, rect.top, rect.height, canvasHeight as real);
  }

  lemma RoundTripOneAxis(c: real, p: real, start: real, extent: real, size: real)
    requires extent > 0.0 && size > 0.0
    ensures start + ((c - start) * (size / extent)) * (extent / size) == c
    ensures (start + p * (extent / size) - start) * (size / extent) == p
  {
    assert (size / extent) * (extent / size) == 1.0;
    assert ((c - start) * (size / extent)) * (extent / size) == (c - start) * ((size / extent) * (extent / size));
    assert (p * (extent / size)) * (size / extent) == p * ((extent / size) * (size / extent));
  }

  /** The on-screen rectangle of the transformed layer, which the canvases
      fill: the layer is `layerWidth` by `layerHeight` and its untransformed
      corner is at `corner`. */
  function LayerRect(corner: Point, layerWidth: real, layerHeight: real, t: Transform): Rect
  {
    Rect(corner.x + t.x, corner.y + t.y, t.scale * layerWidth, t.scale * layerHeight)
  }

  /** Mapping through the transformed layer undoes the pan and zoom and
      then rescales to the canvas's resolution: the pixel under the pointer
      does not depend on where the view is zoomed or panned to, only on the
      layer point under the pointer. */
  lemma ScreenToCanvasThroughTransform(client: Point, corner: Point, layerWidth: real, layerHeight: real,
                                       t: Transform, canvasWidth: int, canvasHeight: int)
    requires layerWidth > 0.0 && layerHeight > 0.0 && t.scale > 0.0
    ensures var p := ScreenToCanvas(client, LayerRect(corner, layerWidth, layerHeight, t), canvasWidth, canvasHeight);
            && p.x == ContentAt(client.x - corner.x, t.x, t.scale) * (canvasWidth as real / layerWidth)
            && p.y == ContentAt(client.y - corner.y, t.y, t.scale) * (canvasHeight as real / layerHeight)
  {
    ThroughTransformOneAxis(client.x, corner.x, layerWidth, t.x, t.scale, canvasWidth as real);
    ThroughTransformOneAxis(client.y, corner.y, layerHeight, t.y, t.scale, canvasHeight as real);
  }

  lemma ThroughTransformOneAxis(c: real, corner: real, extent: real, offset: real, scale: real, size: real)
    requires extent > 0.0 && scale > 0.0
    ensures (c - (corner + offset)) * (size / (scale * extent)) == ContentAt(c - corner, offset, scale) * (size / extent)
  {
    var d := c - corner - offset;
    assert size / (scale * extent) == (size / extent) / scale;
    assert d * ((size / extent) / scale) == (d / scale) * (size / extent);
  }

  /** The height given to the viewport once the image has loaded:
      `containerWidth * (img.height / img.width)`, which shows the image
      at its own aspect ratio. */
  function DisplayHeight(containerWidth: real, imageWidth: int, imageHeight: int): (r: real)
    requires imageWidth > 0
    ensures r * imageWidth as real == containerWidth * imageHeight as real
  {
    var aspectRatio := imageHeight as real / imageWidth as real;
    assert aspectRatio * imageWidth as real == imageHeight as real;
    containerWidth * aspectRatio
  }

  // ---------------------------------------------------------------------
  // The brush cursor
  // ---------------------------------------------------------------------

  /** The cursor diameter as written: `brushSize * (viewport.width /
      (mask.width || 1))`, from the viewport's rectangle, which does not
      change with the zoom. */
  function CursorSizeAsWritten(brushSize: real, viewport: Rect, maskWidth: int): real
  {
    brushSize * (viewport.width / (if maskWidth == 0 then 1 else maskWidth) as real)
  }

  /** The cursor diameter taken from the mask canvas's own on-screen
      rectangle, the one the pointer mapping uses. */
  function CursorSize(brushSize: real, canvasRect: Rect, maskWidth: int): real
    requires maskWidth > 0
  {
    brushSize * (canvasRect.width / maskWidth as real)
  }

  /** The cursor is as wide on screen as the brush paints: the screen
      distance between two canvas points `brushSize` apart. */
  lemma CursorSizeMatchesBrush(brushSize: real, canvasRect: Rect, maskWidth: int, maskHeight: int, p: Point)
    requires maskWidth > 0 && maskHeight > 0
    ensures CanvasToScreen(Point(p.x + brushSize, p.y), canvasRect, maskWidth, maskHeight).x
              - CanvasToScreen(p, canvasRect, maskWidth, maskHeight).x
            == CursorSize(brushSize, canvasRect, maskWidth)
  {
  }

  /** The cursor as written has the brush's on-screen size only when the
      transformed layer is exactly as wide as the viewport's rectangle,
      so not after zooming. */
  lemma CursorSizeAsWrittenIgnoresZoom(brushSize: real, viewport: Rect, corner: Point, layerWidth: real,
                                       layerHeight: real, t: Transform, maskWidth: int)
    requires brushSize > 0.0 && maskWidth > 0
    ensures CursorSizeAsWritten(brushSize, viewport, maskWidth)
              == CursorSize(brushSize, LayerRect(corner, layerWidth, layerHeight, t), maskWidth)
            <==> viewport.width == t.scale * layerWidth
  {
    var m := maskWidth as real;
    var a := viewport.width / m;
    var b := (t.scale * layerWidth) / m;
    assert a * m == viewport.width && b * m == t.scale * layerWidth;
    assert brushSize * a == brushSize * b <==> a == b;
  }

  /** At zoom 2 over a 1000 pixel wide mask shown in a viewport 508 wide
      (a 500 wide layer inside a 4 pixel border), a 40 pixel brush paints a
      40 pixel wide trace on screen while the cursor is about 20 wide. */
  lemma CursorSizeCounterexample()
    ensures var t := Transform(0.0, 0.0, 2.0);
            var viewport := Rect(0.0, 0.0, 508.0, 258.0);
            var layer := LayerRect(Point(4.0, 4.0), 500.0, 250.0, t);
            && CursorSize(40.0, layer, 1000) == 40.0
            && CursorSizeAsWritten(40.0, viewport, 1000) < 21.0
  {
  }

  // ---------------------------------------------------------------------
  // Brush footprints on the mask's pixel grid
  // ---------------------------------------------------------------------

  /** The pixels of a `width` by `height` canvas. */
  function Grid(width: int, height: int): set<Pixel>
  {
    set i: int, j: int | 0 <= i < width && 0 <= j < height :: (i, j)
  }

  /** The centre of a pixel; a pixel is covered by a shape when its centre
      lies in the shape. */
  function Centre(i: int, j: int): Point
  {
    Point(i as real + 0.5, j as real + 0.5)
  }

  function Dot(u: Point, v: Point): real
  {
    u.x * v.x + u.y * v.y
  }

  /** The cross product; its square over `Dot(d, d)` is the squared
      distance from `q` to the line through the origin along `d`. */
  function Cross(u: Point, v: Point): real
  {
    u.x * v.y - u.y * v.x
  }

  function Sub(p: Point, q: Point): Point
  {
    Point(p.x - q.x, p.y - q.y)
  }

  function DistSq(p: Point, q: Point): real
  {
    Dot(Sub(p, q), Sub(p, q))
  }

  /** `arc(x, y, radius, 0, 2 * PI)` then `fill()`: the pixels within
      `radius` of the centre. */
  function DiscPixels(c: Point, radius: real, width: int, height: int): set<Pixel>
  {
    set i: int, j: int | 0 <= i < width && 0 <= j < height && DistSq(Centre(i, j), c) <= radius * radius :: (i, j)
  }

  /** The body of a stroked segment from `a` to `b`: the pixels that
      project onto the segment and lie within `radius` of its line. A
      segment of zero length has no body (the canvas prunes it). */
  function BodyPixels(a: Point, b: Point, radius: real, width: int, height: int): set<Pixel>
  {
    if a == b then {}
    else
      var d := Sub(b, a);
      set i: int, j: int | 0 <= i < width && 0 <= j < height
                           && 0.0 <= Dot(Sub(Centre(i, j), a), d) <= Dot(d, d)
                           && Cross(Sub(Centre(i, j), a), d) * Cross(Sub(Centre(i, j), a), d)
                                <= radius * radius * Dot(d, d) :: (i, j)
  }

  /** `lineTo(b)` then `stroke()` from `a` with `lineWidth` and round caps:
      the segment's body and a disc of half the line width around each
      end (the HTML canvas stroke of one segment with round caps). */
  function SegmentPixels(a: Point, b: Point, lineWidth: real, width: int, height: int): set<Pixel>
  {
    var radius := lineWidth / 2.0;
    DiscPixels(a, radius, width, height) + BodyPixels(a, b, radius, width, height)
      + DiscPixels(b, radius, width, height)
  }

  /** A stroked segment is its body and the caps at both ends. */
  lemma SegmentParts(a: Point, b: Point, lineWidth: real, width: int, height: int)
    ensures SegmentPixels(a, b, lineWidth, width, height)
            == DiscPixels(a, lineWidth / 2.0, width, height) + BodyPixels(a, b, lineWidth / 2.0, width, height)
               + DiscPixels(b, lineWidth / 2.0, width, height)
  {
  }

  /** A move that ends on the open path's own point strokes nothing but
      the round cap there: the disc of half the line width. This is what
      Chrome draws; a canvas that follows the HTML standard also drops the
      single-point subpath and strokes nothing, which within a stroke gives
      the same mask (`RepeatedPositionAddsNothing`). */
  lemma SegmentToItself(a: Point, lineWidth: real, width: int, height: int)
    ensures SegmentPixels(a, a, lineWidth, width, height) == DiscPixels(a, lineWidth / 2.0, width, height)
  {
    SegmentParts(a, a, lineWidth, width, height);
    CapsAroundEmptyBody(DiscPixels(a, lineWidth / 2.0, width, height), BodyPixels(a, a, lineWidth / 2.0, width, height));
  }

  lemma CapsAroundEmptyBody(cap: set<Pixel>, body: set<Pixel>)
    requires body == {}
    ensures cap + body + cap == cap
  {
  }

  // ---------------------------------------------------------------------
  // Painting and erasing
  // ---------------------------------------------------------------------

  /** What drawing a shape does to the mask under the composite operation
      chosen by the mode: `source-over` adds the shape's pixels,
      `destination-out` removes them. */
  function ApplyFootprint(mask: set<Pixel>, footprint: set<Pixel>, mode: EditMode): set<Pixel>
  {
    match mode
    case Paint => mask + footprint
    case Erase => mask - footprint
  }

  /** The pixels a stroke through `path` touches: the disc put down at
      the first point and one round-capped segment per later point. */
  function StrokeFootprint(path: seq<Point>, brushSize: real, width: int, height: int): set<Pixel>
    requires |path| >= 1
  {
    if |path| == 1 then DiscPixels(path[0], brushSize / 2.0, width, height)
    else StrokeFootprint(path[..|path| - 1], brushSize, width, height)
           + SegmentPixels(path[|path| - 2], path[|path| - 1], brushSize, width, height)
  }

  /** The mask after a pointer-down at the first point of `path` and a
      drawing move to each later point, one shape at a time as the
      handlers draw them. */
  function StrokeMask(mask: set<Pixel>, mode: EditMode, path: seq<Point>, brushSize: real,
                      width: int, height: int): set<Pixel>
    requires |path| >= 1
  {
    if |path| == 1 then ApplyFootprint(mask, DiscPixels(path[0], brushSize / 2.0, width, height), mode)
    else ApplyFootprint(StrokeMask(mask, mode, path[..|path| - 1], brushSize, width, height),
                        SegmentPixels(path[|path| - 2], path[|path| - 1], brushSize, width, height), mode)
  }

  /** Drawing a stroke shape by shape is the same as drawing its whole
      footprint at once: painting adds it to the mask, erasing removes it. */
  lemma {:induction false} StrokeIsOneFootprint(mask: set<Pixel>, mode: EditMode, path: seq<Point>, brushSize: real,
                                                width: int, height: int)
    requires |path| >= 1
    ensures StrokeMask(mask, mode, path, brushSize, width, height)
            == ApplyFootprint(mask, StrokeFootprint(path, brushSize, width, height), mode)
  {
    if |path| > 1 {
      StrokeIsOneFootprint(mask, mode, path[..|path| - 1], brushSize, width, height);
    }
  }

  /** The brush disc around each point of the path is part of the
      stroke's footprint, and nothing outside the canvas is. */
  lemma {:induction false} StrokeCoversPath(path: seq<Point>, brushSize: real, width: int, height: int)
    requires |path| >= 1
    ensures forall k :: 0 <= k < |path| ==>
              DiscPixels(path[k], brushSize / 2.0, width, height) <= StrokeFootprint(path, brushSize, width, height)
    ensures StrokeFootprint(path, brushSize, width, height) <= Grid(width, height)
  {
    if |path| > 1 {
      var prefix := path[..|path| - 1];
      StrokeCoversPath(prefix, brushSize, width, height);
      assert forall k :: 0 <= k < |path| - 1 ==> path[k] == prefix[k];
    }
  }

  /** After a painting stroke every pixel of its footprint (the discs at
      the path's points and the segments between them) is covered; after
      an erasing stroke none is; pixels away from the stroke keep their
      state either way. */
  lemma StrokeEffect(mask: set<Pixel>, mode: EditMode, path: seq<Point>, brushSize: real,
                     width: int, height: int, px: Pixel)
    requires |path| >= 1 && px in StrokeFootprint(path, brushSize, width, height)
    ensures mode == Paint ==> px in StrokeMask(mask, mode, path, brushSize, width, height)
    ensures mode == Erase ==> px !in StrokeMask(mask, mode, path, brushSize, width, height)
    ensures forall q :: q !in StrokeFootprint(path, brushSize, width, height) ==>
              (q in StrokeMask(mask, mode, path, brushSize, width, height) <==> q in mask)
  {
    StrokeIsOneFootprint(mask, mode, path, brushSize, width, height);
  }

  /** Erasing along the same path with the same brush removes everything
      painting added, so on an empty mask paint then erase leaves it empty. */
  lemma EraseUndoesPaint(mask: set<Pixel>, path: seq<Point>, brushSize: real, width: int, height: int)
    requires |path| >= 1
    ensures var painted := StrokeMask(mask, Paint, path, brushSize, width, height);
            StrokeMask(painted, Erase, path, brushSize, width, height)
              == mask - StrokeFootprint(path, brushSize, width, height)
    ensures var painted := StrokeMask({}, Paint, path, brushSize, width, height);
            StrokeMask(painted, Erase, path, brushSize, width, height) == {}
  {
    var painted := StrokeMask(mask, Paint, path, brushSize, width, height);
    StrokeIsOneFootprint(mask, Paint, path, brushSize, width, height);
    StrokeIsOneFootprint(painted, Erase, path, brushSize, width, height);
    var empty: set<Pixel> := {};
    var paintedEmpty := StrokeMask(empty, Paint, path, brushSize, width, height);
    StrokeIsOneFootprint(empty, Paint, path, brushSize, width, height);
    StrokeIsOneFootprint(paintedEmpty, Erase, path, brushSize, width, height);
  }

  /** A stroke's first shape is the disc at its first point. */
  lemma StrokeMaskFirst(mask: set<Pixel>, mode: EditMode, path: seq<Point>, brushSize: real, width: int, height: int)
    requires |path| >= 1
    ensures StrokeMask(mask, mode, path[..1], brushSize, width, height)
            == ApplyFootprint(mask, DiscPixels(path[0], brushSize / 2.0, width, height), mode)
  {
  }

  /** Each further point of a stroke adds the segment from the point
      before it. */
  lemma StrokeMaskLast(mask: set<Pixel>, mode: EditMode, path: seq<Point>, brushSize: real, width: int, height: int)
    requires |path| >= 2
    ensures StrokeMask(mask, mode, path, brushSize, width, height)
            == ApplyFootprint(StrokeMask(mask, mode, path[..|path| - 1], brushSize, width, height),
                              SegmentPixels(path[|path| - 2], path[|path| - 1], brushSize, width, height), mode)
  {
  }

  /** Drawing a shape again, or any part of it, right after drawing it in
      the same mode changes nothing. */
  lemma ApplyAbsorbs(mask: set<Pixel>, shape: set<Pixel>, part: set<Pixel>, mode: EditMode)
    requires part <= shape
    ensures ApplyFootprint(ApplyFootprint(mask, shape, mode), part, mode) == ApplyFootprint(mask, shape, mode)
  {
  }

  lemma EndCapInUnion(start: set<Pixel>, body: set<Pixel>, end: set<Pixel>)
    ensures end <= start + body + end
  {
  }

  /** The last shape of a stroke covers the round cap at its last point. */
  lemma LastShapeHasCap(path: seq<Point>, brushSize: real, width: int, height: int)
    requires |path| >= 2
    ensures DiscPixels(path[|path| - 1], brushSize / 2.0, width, height)
            <= SegmentPixels(path[|path| - 2], path[|path| - 1], brushSize, width, height)
  {
    var before, last := path[|path| - 2], path[|path| - 1];
    SegmentParts(before, last, brushSize, width, height);
    EndCapInUnion(DiscPixels(before, brushSize / 2.0, width, height),
                  BodyPixels(before, last, brushSize / 2.0, width, height),
                  DiscPixels(last, brushSize / 2.0, width, height));
  }

  /** The mask after a stroke, redrawn with the cap at its last point,
      is the same mask. */
  lemma StrokeAbsorbsLastCap(mask: set<Pixel>, mode: EditMode, path: seq<Point>, brushSize: real,
                             width: int, height: int)
    requires |path| >= 1
    ensures ApplyFootprint(StrokeMask(mask, mode, path, brushSize, width, height),
                           DiscPixels(path[|path| - 1], brushSize / 2.0, width, height), mode)
            == StrokeMask(mask, mode, path, brushSize, width, height)
  {
    var cap := DiscPixels(path[|path| - 1], brushSize / 2.0, width, height);
    if |path| == 1 {
      ApplyAbsorbs(mask, cap, cap, mode);
    } else {
      StrokeMaskLast(mask, mode, path, brushSize, width, height);
      LastShapeHasCap(path, brushSize, width, height);
      ApplyAbsorbs(StrokeMask(mask, mode, path[..|path| - 1], brushSize, width, height),
                   SegmentPixels(path[|path| - 2], path[|path| - 1], brushSize, width, height), cap, mode);
    }
  }

  /** A move to the position the pointer is already at (a repeated
      position in the gesture) leaves the stroke's mask as it was: its
      segment is only the round cap there, which the shape before it
      already drew. */
  lemma RepeatedPositionAddsNothing(mask: set<Pixel>, mode: EditMode, path: seq<Point>, brushSize: real,
                                    width: int, height: int)
    requires |path| >= 1
    ensures StrokeMask(mask, mode, path + [path[|path| - 1]], brushSize, width, height)
            == StrokeMask(mask, mode, path, brushSize, width, height)
  {
    var last := path[|path| - 1];
    var repeated := path + [last];
    StrokeMaskLast(mask, mode, repeated, brushSize, width, height);
    assert repeated[..|repeated| - 1] == path;
    SegmentToItself(last, brushSize, width, height);
    StrokeAbsorbsLastCap(mask, mode, path, brushSize, width, height);
  }

  /** Drawing a disc keeps the mask on its canvas. */
  lemma DiscStaysOnGrid(mask: set<Pixel>, c: Point, brushSize: real, mode: EditMode, width: int, height: int)
    requires mask <= Grid(width, height)
    ensures ApplyFootprint(mask, DiscPixels(c, brushSize / 2.0, width, height), mode) <= Grid(width, height)
  {
  }

  /** Drawing a segment keeps the mask on its canvas. */
  lemma SegmentStaysOnGrid(mask: set<Pixel>, a: Point, b: Point, brushSize: real, mode: EditMode,
                           width: int, height: int)
    requires mask <= Grid(width, height)
    ensures ApplyFootprint(mask, SegmentPixels(a, b, brushSize, width, height), mode) <= Grid(width, height)
  {
  }

  /** The pointer positions of a gesture mapped into the mask's pixel grid. */
  function CanvasPath(clients: seq<Point>, rect: Rect, canvasWidth: int, canvasHeight: int): (path: seq<Point>)
    requires rect.width > 0.0 && rect.height > 0.0
    ensures |path| == |clients|
    ensures forall i :: 0 <= i < |clients| ==> path[i] == ScreenToCanvas(clients[i], rect, canvasWidth, canvasHeight)
  {
    if clients == [] then []
    else CanvasPath(clients[..|clients| - 1], rect, canvasWidth, canvasHeight)
         + [ScreenToCanvas(clients[|clients| - 1], rect, canvasWidth, canvasHeight)]
  }

  // ---------------------------------------------------------------------
  // The component
  // ---------------------------------------------------------------------

  /** The editor component's state: the view transform, the gesture flags,
      the last pointer position of a pan, the viewport height, the sizes of
      the two canvases, the mask canvas's pixels with the drawing state of
      its 2D context (the current point of the open path and the composite
      operation), and the masks handed to `onMaskChange` so far. */
  class CanvasEditor {
    var transform: Transform
    var isDrawing: bool
    var isPanning: bool
    var lastMousePos: Point
    /** `None` while the height is still `'auto'`. */
    var containerHeight: Option<real>
    var imageWidth: int
    var imageHeight: int
    var maskWidth: int
    var maskHeight: int
    var mask: set<Pixel>
    /** The current point of the mask context's path, `None` when the path is empty. */
    var pen: Option<Point>
    /** `Paint` for `source-over`, `Erase` for `destination-out`. */
    var compositeMode: EditMode
    var emitted: seq<MaskImage>

    /** The scale stays within its bounds, both canvases have the image's
        size and the mask lies on its canvas. */
    ghost predicate Valid()
      reads this
    {
      && InScaleRange(transform.scale)
      && maskWidth > 0 && maskHeight > 0
      && imageWidth == maskWidth && imageHeight == maskHeight
      && mask <= Grid(maskWidth, maskHeight)
    }

    /** The first render: identity transform, no gesture, both canvases at
        the HTML default size of 300 by 150 and an empty mask. */
    constructor ()
      ensures Valid()
      ensures transform == Identity && !isDrawing && !isPanning && lastMousePos == Point(0.0, 0.0)
      ensures containerHeight == None
      ensures imageWidth == DefaultCanvasWidth && imageHeight == DefaultCanvasHeight
      ensures maskWidth == DefaultCanvasWidth && maskHeight == DefaultCanvasHeight
      ensures mask == {} && pen == None && compositeMode == Paint && emitted == []
    {
      transform := Identity;
      isDrawing := false;
      isPanning := false;
      lastMousePos := Point(0.0, 0.0);
      containerHeight := None;
      imageWidth := DefaultCanvasWidth;
      imageHeight := DefaultCanvasHeight;
      maskWidth := DefaultCanvasWidth;
      maskHeight := DefaultCanvasHeight;
      mask := {};
      pen := None;
      compositeMode := Paint;
      emitted := [];
    }

    /** The image's `onload`: both canvases take the image's size (which
        clears the mask and resets its context), the viewport takes the
        image's aspect ratio and the view returns to the identity. */
    method OnImageLoad(width: int, height: int, containerWidth: real)
      requires Valid() && width > 0 && height > 0
      modifies this`imageWidth, this`imageHeight, this`maskWidth, this`maskHeight, this`mask, this`pen,
               this`compositeMode, this`containerHeight, this`transform
      ensures Valid()
      ensures imageWidth == width && imageHeight == height && maskWidth == width && maskHeight == height
      ensures mask == {} && pen == None && compositeMode == Paint
      ensures containerHeight == Some(DisplayHeight(containerWidth, width, height))
      ensures transform == Identity
    {
      var calculatedHeight := DisplayHeight(containerWidth, width, height);
      imageWidth, imageHeight := width, height;
      maskWidth, maskHeight := width, height;
      mask, pen, compositeMode := {}, None, Paint;
      containerHeight := Some(calculatedHeight);
      transform := Identity;
    }

    /** `handleWheel`: unless an edit is running, zoom about the pointer,
        measured from the viewport's top left corner. */
    method Wheel(deltaY: real, client: Point, viewport: Rect, isProcessing: bool, zoomSpeed: real)
      requires Valid()
      modifies this`transform
      ensures Valid()
      ensures isProcessing ==> transform == old(transform)
      ensures !isProcessing ==>
                transform == ZoomAt(old(transform), Point(client.x - viewport.left, client.y - viewport.top),
                                    WheelScale(old(transform).scale, deltaY, zoomSpeed))
    {
      if isProcessing {
        return;
      }
      var newScale := WheelScale(transform.scale, deltaY, zoomSpeed);
      var mouse := Point(client.x - viewport.left, client.y - viewport.top);
      transform := ZoomAt(transform, mouse, newScale);
    }

    /** `startInteraction`: unless an edit is running, the middle button or
        a held space bar starts a pan from the pointer; anything else starts
        a stroke, putting down a disc of the brush's size at the mapped
        point with the composite operation of the current mode, and opens
        a path there. */
    method StartInteraction(client: Point, canvasRect: Rect, isMiddleClick: bool, isSpacePressed: bool,
                            isProcessing: bool, mode: EditMode, brushSize: real)
      requires Valid() && canvasRect.width > 0.0 && canvasRect.height > 0.0 && brushSize >= 0.0
      modifies this`isPanning, this`lastMousePos, this`isDrawing, this`compositeMode, this`mask, this`pen
      ensures Valid()
      ensures isProcessing ==> unchanged(this)
      ensures !isProcessing && (isMiddleClick || isSpacePressed) ==>
                && isPanning && lastMousePos == client
                && isDrawing == old(isDrawing) && compositeMode == old(compositeMode)
                && mask == old(mask) && pen == old(pen)
      ensures !isProcessing && !isMiddleClick && !isSpacePressed ==>
                var p := ScreenToCanvas(client, canvasRect, maskWidth, maskHeight);
                && isDrawing && compositeMode == mode && pen == Some(p)
                && mask == ApplyFootprint(old(mask), DiscPixels(p, brushSize / 2.0, maskWidth, maskHeight), mode)
                && isPanning == old(isPanning) && lastMousePos == old(lastMousePos)
    {
      if isProcessing {
        return;
      }
      if isMiddleClick || isSpacePressed {
        isPanning := true;
        lastMousePos := client;
        return;
      }
      isDrawing := true;
      var p := ScreenToCanvas(client, canvasRect, maskWidth, maskHeight);
      compositeMode := mode;
      DiscStaysOnGrid(mask, p, brushSize, mode, maskWidth, maskHeight);
      mask := ApplyFootprint(mask, DiscPixels(p, brushSize / 2.0, maskWidth, maskHeight), mode);
      pen := Some(p);
    }

    /** `handleMouseMove`: a pan moves the view by the pointer's travel
        times `panSensitivity / 5`, even while an edit is running;
        otherwise, while drawing and not processing, the open path is
        stroked to the mapped point with the brush as line width, and a
        new path opens there. */
    method HandleMove(client: Point, canvasRect: Rect, isProcessing: bool, brushSize: real, panSensitivity: real)
      requires Valid() && canvasRect.width > 0.0 && canvasRect.height > 0.0 && brushSize > 0.0
      modifies this`transform, this`lastMousePos, this`mask, this`pen
      ensures Valid()
      ensures isPanning ==>
                && transform == Pan(old(transform), old(lastMousePos), client, panSensitivity)
                && lastMousePos == client && mask == old(mask) && pen == old(pen)
      ensures !isPanning && (!isDrawing || isProcessing) ==> unchanged(this)
      ensures !isPanning && isDrawing && !isProcessing ==>
                var p := ScreenToCanvas(client, canvasRect, maskWidth, maskHeight);
                && transform == old(transform) && lastMousePos == old(lastMousePos) && pen == Some(p)
                && mask == (if old(pen).Some?
                            then ApplyFootprint(old(mask), SegmentPixels(old(pen).value, p, brushSize, maskWidth, maskHeight),
                                                compositeMode)
                            else old(mask))
    {
      if isPanning {
        transform := Pan(transform, lastMousePos, client, panSensitivity);
        lastMousePos := client;
        return;
      }
      if !isDrawing || isProcessing {
        return;
      }
      var p := ScreenToCanvas(client, canvasRect, maskWidth, maskHeight);
      if pen.Some? {
        SegmentStaysOnGrid(mask, pen.value, p, brushSize, compositeMode, maskWidth, maskHeight);
        mask := ApplyFootprint(mask, SegmentPixels(pen.value, p, brushSize, maskWidth, maskHeight), compositeMode);
      }
      pen := Some(p);
    }

    /** `stopInteraction`: always ends a pan; ends a stroke and hands the
        mask to `onMaskChange` only when one was being drawn. */
    method StopInteraction()
      requires Valid()
      modifies this`isPanning, this`isDrawing, this`emitted
      ensures Valid()
      ensures !isPanning && !isDrawing
      ensures emitted == old(emitted) + (if old(isDrawing) then [MaskImage(maskWidth, maskHeight, mask)] else [])
    {
      isPanning := false;
      if isDrawing {
        isDrawing := false;
        emitted := emitted + [MaskImage(maskWidth, maskHeight, mask)];
      }
    }

    /** `resetZoom`. */
    method ResetZoom()
      requires Valid()
      modifies this`transform
      ensures Valid() && transform == Identity
    {
      transform := Identity;
    }

    /** The zoom-in button: half a step up, at most the largest scale; the
        offset is kept. */
    method ZoomIn()
      requires Valid()
      modifies this`transform
      ensures Valid()
      ensures transform == old(transform).(scale := ZoomInScale(old(transform).scale))
    {
      transform := transform.(scale := ZoomInScale(transform.scale));
    }

    /** The zoom-out button: half a step down, at least the smallest scale. */
    method ZoomOut()
      requires Valid()
      modifies this`transform
      ensures Valid()
      ensures transform == old(transform).(scale := ZoomOutScale(old(transform).scale))
    {
      transform := transform.(scale := ZoomOutScale(transform.scale));
    }

    /** `clearMask`: clears the whole mask canvas and hands the empty mask
        to `onMaskChange` once. */
    method ClearMask()
      requires Valid()
      modifies this`mask, this`emitted
      ensures Valid()
      ensures mask == {} && emitted == old(emitted) + [MaskImage(maskWidth, maskHeight, {})]
    {
      mask := {};
      emitted := emitted + [MaskImage(maskWidth, maskHeight, {})];
    }

    /** The moves of a drawing gesture after its first position: each
        later position strokes the segment from the one before it. */
    method MoveThrough(clients: seq<Point>, canvasRect: Rect, brushSize: real, ghost start: set<Pixel>)
      requires Valid() && !isPanning && isDrawing && |clients| >= 1
      requires canvasRect.width > 0.0 && canvasRect.height > 0.0 && brushSize > 0.0
      requires var p := ScreenToCanvas(clients[0], canvasRect, maskWidth, maskHeight);
               && pen == Some(p)
               && mask == ApplyFootprint(start, DiscPixels(p, brushSize / 2.0, maskWidth, maskHeight), compositeMode)
      modifies this`transform, this`lastMousePos, this`mask, this`pen
      ensures Valid() && transform == old(transform) && lastMousePos == old(lastMousePos)
      ensures var path := CanvasPath(clients, canvasRect, maskWidth, maskHeight);
              && pen == Some(path[|path| - 1])
              && mask == StrokeMask(start, compositeMode, path, brushSize, maskWidth, maskHeight)
    {
      ghost var path := CanvasPath(clients, canvasRect, maskWidth, maskHeight);
      StrokeMaskFirst(start, compositeMode, path, brushSize, maskWidth, maskHeight);
      var i := 1;
      while i < |clients|
        invariant 1 <= i <= |clients|
        invariant Valid() && !isPanning && isDrawing
        invariant pen == Some(path[i - 1])
        invariant mask == StrokeMask(start, compositeMode, path[..i], brushSize, maskWidth, maskHeight)
        invariant transform == old(transform) && lastMousePos == old(lastMousePos)
      {
        ghost var before := mask;
        StrokeMaskLast(start, compositeMode, path[..i + 1], brushSize, maskWidth, maskHeight);
        assert path[..i + 1][..i] == path[..i];
        HandleMove(clients[i], canvasRect, false, brushSize, NeutralPanSensitivity);
        assert mask == ApplyFootprint(before, SegmentPixels(path[i - 1], path[i], brushSize, maskWidth, maskHeight),
                                      compositeMode);
        i := i + 1;
      }
      assert path[..i] == path;
    }

    /** One drawing gesture: a pointer-down at the first position, a move
        to each later one and a pointer-up, with no edit running and the
        canvas's on-screen rectangle fixed. The mask becomes the stroke
        through the mapped positions, and exactly that mask is handed to
        `onMaskChange`, once. */
    method DrawStroke(clients: seq<Point>, canvasRect: Rect, mode: EditMode, brushSize: real)
      requires Valid() && !isPanning && |clients| >= 1
      requires canvasRect.width > 0.0 && canvasRect.height > 0.0 && brushSize > 0.0
      modifies this`isPanning, this`lastMousePos, this`isDrawing, this`compositeMode, this`mask, this`pen,
               this`transform, this`emitted
      ensures Valid()
      ensures var path := CanvasPath(clients, canvasRect, maskWidth, maskHeight);
              && mask == StrokeMask(old(mask), mode, path, brushSize, maskWidth, maskHeight)
              && emitted == old(emitted) + [MaskImage(maskWidth, maskHeight, mask)]
              && pen == Some(path[|path| - 1]) && compositeMode == mode
      ensures !isDrawing && !isPanning && transform == old(transform) && lastMousePos == old(lastMousePos)
    {
      ghost var start := mask;
      StartInteraction(clients[0], canvasRect, false, false, false, mode, brushSize);
      MoveThrough(clients, canvasRect, brushSize, start);
      assert isDrawing && emitted == old(emitted);
      StopInteraction();
    }
  }
}
