/**
 Where the X screen appears on the Android surface, and where a touch lands on the X screen. LorieView.java fits a
 viewport and keeps the input transform; renderer.c zooms the viewport, pans over the screen and draws. Floats are
 reals; a C cast to int truncates toward zero.
 */
module Viewport {
  import opened Options

  datatype Rect = Rect(left: int, top: int, width: int, height: int)
  datatype Insets = Insets(left: nat, top: nat, right: nat, bottom: nat)

  /** The part of the X screen that fills a viewport. */
  datatype Source = Source(left: real, top: real, width: real, height: real)

  predicate Inside(r: Rect, surfaceW: int, surfaceH: int) {
    && 0 <= r.left && 0 <= r.width && r.left + r.width <= surfaceW
    && 0 <= r.top && 0 <= r.height && r.top + r.height <= surfaceH
  }

  // ----- fitting the viewport (LorieView.updateViewport) -----

  /** A w x h box placed in an area of availableW x availableH for a screen of px x py: it fills one dimension, and
      the other misses the exact aspect ratio by less than a pixel. */
  predicate Fits(availableW: int, availableH: int, px: int, py: int, w: int, h: int) {
    && 0 <= w <= availableW && 0 <= h <= availableH
    && ((h == availableH && w * py <= h * px < (w + 1) * py) || (w == availableW && h * px <= w * py < (h + 1) * px))
  }

  /** The two gaps on an axis differ by at most one pixel. */
  predicate Centred(start: int, extent: int, inner: int, innerExtent: int) {
    && start <= inner && inner + innerExtent <= start + extent
    && 0 <= (start + extent - inner - innerExtent) - (inner - start) <= 1
  }

  lemma FloorDivision(a: int, b: int)
    requires 0 <= a && 0 < b
    ensures 0 <= a / b && (a / b) * b <= a < (a / b + 1) * b
  {}

  lemma ProductOrder(a: int, b: int, c: int)
    requires 0 < c && a * c < b * c
    ensures a < b
  {}

  /** No box of the exact aspect ratio that fits the area is larger in either dimension. */
  lemma FittedIsLargest(availableW: int, availableH: int, px: int, py: int, w: int, h: int, w': nat, h': nat)
    requires 0 < px && 0 < py && Fits(availableW, availableH, px, py, w, h)
    requires w' <= availableW && h' <= availableH && w' * py == h' * px
    ensures w' <= w && h' <= h
  {
    if h == availableH && w * py <= h * px < (w + 1) * py {
      ProductGrows(h', h, px);
      ProductOrder(w', w + 1, py);
    } else {
      ProductGrows(w', w, py);
      ProductOrder(h', h + 1, px);
    }
  }

  lemma ProductGrows(a: int, b: int, c: int)
    requires a <= b && 0 <= c
    ensures a * c <= b * c
  {}

  class View {
    var zoom: int
    var viewport: Rect
    var inputViewport: Rect
    var inputSource: Source

    constructor ()
      ensures zoom == 100 && inputSource == Source(0.0, 0.0, 0.0, 0.0)
    {
      zoom := 100;
      viewport, inputViewport := Rect(0, 0, 0, 0), Rect(0, 0, 0, 0);
      inputSource := Source(0.0, 0.0, 0.0, 0.0);
    }

    /** updateViewport: px and py are the screen dimensions from the settings; `stretch` is the preference. */
    method UpdateViewport(surfaceW: nat, surfaceH: nat, insets: Insets, px: int, py: int, stretch: bool)
      requires 0 < px && 0 < py
      modifies this`viewport, this`inputViewport, this`inputSource
      ensures var w, h := surfaceW - insets.left - insets.right, surfaceH - insets.top - insets.bottom;
        if w <= 0 || h <= 0 then
          viewport == old(viewport) && inputViewport == old(inputViewport) && inputSource == old(inputSource)
        else
          && Inside(viewport, surfaceW, surfaceH)
          && Centred(insets.left, w, viewport.left, viewport.width)
          && Centred(insets.top, h, viewport.top, viewport.height)
          && (if stretch then viewport.width == w && viewport.height == h
              else Fits(w, h, px, py, viewport.width, viewport.height))
          && (if zoom == 100 || old(inputSource.width) == 0.0 || old(inputSource.height) == 0.0 then
                inputViewport == viewport && inputSource == Source(0.0, 0.0, px as real, py as real)
              else inputViewport == old(inputViewport) && inputSource == old(inputSource))
    {
      var availableW := if surfaceW - insets.left - insets.right > 0 then surfaceW - insets.left - insets.right else 0;
      var availableH := if surfaceH - insets.top - insets.bottom > 0 then surfaceH - insets.top - insets.bottom else 0;
      if availableW == 0 || availableH == 0 {
        return;
      }
      var drawW, drawH := availableW, availableH;
      if !stretch {
        FloorDivision(drawH * px, py);
        FloorDivision(drawW * py, px);
        if drawW > drawH * px / py {
          drawW := drawH * px / py;
        } else {
          Narrow(drawW, drawH, px, py);
          drawH := drawW * py / px;
        }
      }
      var left := insets.left + (availableW - drawW) / 2;
      var top := insets.top + (availableH - drawH) / 2;
      viewport := Rect(left, top, drawW, drawH);
      if zoom == 100 || inputSource.width == 0.0 || inputSource.height == 0.0 {
        inputViewport := viewport;
        inputSource := Source(0.0, 0.0, px as real, py as real);
      }
    }

    /** getInputTransform, applied to a surface point. */
    ghost function InputColumn(p: real): real reads this requires inputViewport.width != 0 {
      InputAt(inputViewport.left, inputViewport.width, inputSource.left, inputSource.width, p)
    }

    ghost function InputRow(p: real): real reads this requires inputViewport.height != 0 {
      InputAt(inputViewport.top, inputViewport.height, inputSource.top, inputSource.height, p)
    }

    /** setRendererViewport: the posted report of a frame. */
    method SetRendererViewport(viewport: Rect, source: Source)
      modifies this`inputViewport, this`inputSource
      ensures inputViewport == viewport && inputSource == source
    {
      inputViewport := viewport;
      inputSource := source;
    }
  }

  lemma Narrow(w: int, h: int, px: int, py: int)
    requires 0 <= w && 0 <= h && 0 < px && 0 < py && w <= h * px / py
    ensures w * py / px <= h
  {
    FloorDivision(h * px, py);
    FloorDivision(w * py, px);
    assert w * py <= (h * px / py) * py;
    ProductOrder(w * py / px, h + 1, px);
  }

  // ----- one axis of the zoomed viewport (renderer.c) -----

  function Trunc(x: real): int { if x >= 0.0 then x.Floor else -((-x).Floor) }

  function Min(a: real, b: real): real { if a < b then a else b }

  function Center(start: int, extent: int): real { start as real + extent as real / 2.0 }

  /** How much larger the viewport may be drawn along an axis: the requested zoom, or what the surface allows. */
  function DestinationScale(requested: real, start: int, extent: int, surface: int): real
    requires extent > 0
  {
    var c := Center(start, extent);
    var scale := Min(requested, 2.0 * Min(c, surface as real - c) / extent as real);
    if scale < 1.0 then 1.0 else scale
  }

  function RenderExtent(scale: real, extent: int): int { Trunc(extent as real * scale + 0.5) }

  function RenderStart(start: int, extent: int, rendered: int): int {
    Trunc(Center(start, extent) - rendered as real / 2.0 + 0.5)
  }

  /** The room around the centre is a whole number of pixels. */
  function Room(start: int, extent: int, surface: int): int {
    var before, after := 2 * start + extent, 2 * surface - 2 * start - extent;
    if before < after then before else after
  }

  lemma ScaleBounds(requested: real, start: int, extent: int, surface: int)
    requires 1.0 < requested && 0 < extent && 0 <= start && start + extent <= surface
    ensures var s := DestinationScale(requested, start, extent, surface);
      1.0 <= s <= requested && extent as real * s <= Room(start, extent, surface) as real
  {
    var c, e := Center(start, extent), extent as real;
    var max := 2.0 * Min(c, surface as real - c);
    assert max == Room(start, extent, surface) as real;
    assert max >= e;
    Quotient(max, e);
    var s := DestinationScale(requested, start, extent, surface);
    assert s <= max / e;
    Monotone(s, max / e, e);
  }

  lemma Quotient(a: real, b: real)
    requires b != 0.0
    ensures (a / b) * b == a && b * (a / b) == a
    ensures a >= b > 0.0 ==> a / b >= 1.0
  {}

  lemma Monotone(a: real, b: real, c: real)
    requires a <= b && c >= 0.0
    ensures c * a <= c * b && a * c <= b * c
  {}

  /** The zoomed and rounded viewport stays inside the surface, is not smaller than the viewport, and is off its
      centre by at most half a pixel. */
  lemma RenderInside(requested: real, start: int, extent: int, surface: int)
    requires 1.0 < requested && 0 < extent && 0 <= start && start + extent <= surface
    ensures var w := RenderExtent(DestinationScale(requested, start, extent, surface), extent);
      var x := RenderStart(start, extent, w);
      && 0 <= x && x + w <= surface && extent <= w
      && -1 <= (2 * x + w) - (2 * start + extent) <= 1
  {
    var s := DestinationScale(requested, start, extent, surface);
    ExtentWithin(requested, start, extent, surface);
    StartOfHalf(start, extent, RenderExtent(s, extent));
  }

  lemma ExtentWithin(requested: real, start: int, extent: int, surface: int)
    requires 1.0 < requested && 0 < extent && 0 <= start && start + extent <= surface
    ensures var w := RenderExtent(DestinationScale(requested, start, extent, surface), extent);
      extent <= w <= Room(start, extent, surface)
  {
    var s := DestinationScale(requested, start, extent, surface);
    ScaleBounds(requested, start, extent, surface);
    RoundedProduct(extent, s, Room(start, extent, surface));
  }

  lemma RoundedProduct(extent: int, scale: real, room: int)
    requires 0 < extent && 1.0 <= scale && extent as real * scale <= room as real
    ensures extent <= RenderExtent(scale, extent) <= room
  {
    var e := extent as real;
    assert e * 1.0 == e;
    Monotone(1.0, scale, e);
    RoundedWithin(e * scale, extent, room);
  }

  lemma StartOfHalf(start: int, extent: int, w: int)
    requires w <= 2 * start + extent
    ensures RenderStart(start, extent, w) == (2 * start + extent - w + 1) / 2
  {
    var n := 2 * start + extent - w;
    assert Center(start, extent) - w as real / 2.0 == n as real / 2.0;
    HalfRounded(n);
  }

  lemma RoundedWithin(x: real, lo: int, hi: int)
    requires lo as real <= x <= hi as real
    ensures lo <= (x + 0.5).Floor <= hi
  {}

  lemma HalfRounded(n: int)
    requires 0 <= n
    ensures (n as real / 2.0 + 0.5).Floor == (n + 1) / 2
  {
    var k := n / 2;
    if n == 2 * k {
      assert n as real / 2.0 == k as real;
    } else {
      assert n == 2 * k + 1;
      assert n as real / 2.0 + 0.5 == (k + 1) as real;
    }
  }

  function Requested(zoom: int): real { zoom as real / 100.0 }

  /** The scale along an axis; without a viewport to draw on (`shown` is false) nothing grows. */
  function AxisScale(zoom: int, shown: bool, start: int, extent: int, surface: int): real
    requires shown ==> extent > 0
  {
    if zoom > 100 && shown then DestinationScale(Requested(zoom), start, extent, surface) else 1.0
  }

  predicate Shown(viewport: Rect) { viewport.width > 0 && viewport.height > 0 }

  function ScaleX(zoom: int, viewport: Rect, surfaceW: int): real {
    AxisScale(zoom, Shown(viewport), viewport.left, viewport.width, surfaceW)
  }

  function ScaleY(zoom: int, viewport: Rect, surfaceH: int): real {
    AxisScale(zoom, Shown(viewport), viewport.top, viewport.height, surfaceH)
  }

  /** The viewport as it is drawn. */
  function Rendered(zoom: int, viewport: Rect, surfaceW: int, surfaceH: int): Rect {
    if zoom > 100 && Shown(viewport) then
      var w := RenderExtent(ScaleX(zoom, viewport, surfaceW), viewport.width);
      var h := RenderExtent(ScaleY(zoom, viewport, surfaceH), viewport.height);
      Rect(RenderStart(viewport.left, viewport.width, w), RenderStart(viewport.top, viewport.height, h), w, h)
    else viewport
  }

  /** A viewport inside the surface is drawn inside the surface, no smaller than it was fitted. */
  lemma RenderedInside(zoom: int, viewport: Rect, surfaceW: int, surfaceH: int)
    requires Inside(viewport, surfaceW, surfaceH)
    ensures var r := Rendered(zoom, viewport, surfaceW, surfaceH);
      Inside(r, surfaceW, surfaceH) && viewport.width <= r.width && viewport.height <= r.height
  {
    if zoom > 100 && Shown(viewport) {
      assert Requested(zoom) > 1.0;
      RenderInside(Requested(zoom), viewport.left, viewport.width, surfaceW);
      RenderInside(Requested(zoom), viewport.top, viewport.height, surfaceH);
    }
  }

  /** How much of the screen shows along an axis: what the viewport did not take up of the zoom is cut off. */
  function WindowExtent(zoom: int, scale: real, expected: int): real requires zoom > 100 {
    expected as real * scale / Requested(zoom)
  }

  /** The window is never larger than the screen, so PanInside and PanIsNearest apply to every redraw. */
  lemma WindowWithinScreen(zoom: int, shown: bool, start: int, extent: int, surface: int, expected: int)
    requires 100 < zoom && 0 < expected && (shown ==> extent > 0)
    ensures var w := WindowExtent(zoom, AxisScale(zoom, shown, start, extent, surface), expected);
      0.0 < w <= expected as real && expected as real <= w * Requested(zoom)
  {
    assert Requested(zoom) > 1.0;
    AtLeastOne(zoom, shown, start, extent, surface);
    WindowShare(zoom, AxisScale(zoom, shown, start, extent, surface), expected);
  }

  lemma WindowShare(zoom: int, scale: real, expected: int)
    requires 100 < zoom && 0 < expected && 1.0 <= scale <= Requested(zoom)
    ensures 0.0 < WindowExtent(zoom, scale, expected) <= expected as real
    ensures expected as real <= WindowExtent(zoom, scale, expected) * Requested(zoom)
  {
    Share(expected as real, scale, Requested(zoom));
  }

  lemma AtLeastOne(zoom: int, shown: bool, start: int, extent: int, surface: int)
    requires Requested(zoom) > 1.0 && (shown ==> extent > 0)
    ensures 1.0 <= AxisScale(zoom, shown, start, extent, surface) <= Requested(zoom)
  {}

  lemma Share(e: real, scale: real, requested: real)
    requires 0.0 < e && 1.0 <= scale <= requested
    ensures 0.0 < e * scale / requested <= e && e <= (e * scale / requested) * requested
  {
    Monotone(1.0, scale, e);
    Monotone(scale, requested, e);
    QuotientBounds(e * scale, e, requested);
  }

  lemma QuotientBounds(n: real, e: real, r: real)
    requires 0.0 < n <= e * r && 0.0 < r
    ensures 0.0 < n / r <= e && (n / r) * r == n
  {
    Quotient(n, r);
    CancelOrder(n / r, e, r);
  }

  lemma CancelOrder(a: real, b: real, c: real)
    requires a * c <= b * c && 0.0 < c
    ensures a <= b
  {}

  /** How far a viewport grows along an axis: by the zoom if there is room for it around its centre, else as far as the
      nearer edge of the surface, and not at all if it is past that already or does not show. */
  predicate Grows(zoom: int, shown: bool, start: int, extent: int, surface: int, scale: real) {
    var room := Room(start, extent, surface) as real;
    if !shown then scale == 1.0
    else
      || (scale * 100.0 == zoom as real && extent as real * scale <= room)
      || (1.0 <= scale && scale * 100.0 < zoom as real && extent as real * scale == room)
      || (scale == 1.0 && extent as real > room)
  }

  /** One axis of a zoomed frame.  The viewport grows by a scale, rounded to the nearest pixel; what remains of the zoom
      narrows the window, so that window and zoom make up for each other. */
  predicate Magnified(
    zoom: int, shown: bool, start: int, extent: int, surface: int, expected: int, rendered: int, window: real,
    scale: real)
  {
    && Grows(zoom, shown, start, extent, surface, scale)
    && (if shown then -1.0 <= 2.0 * (rendered as real - extent as real * scale) <= 1.0 else rendered == extent)
    && window * zoom as real == 100.0 * expected as real * scale
  }

  lemma ScaleGrows(zoom: int, shown: bool, start: int, extent: int, surface: int)
    requires zoom > 100 && (shown ==> extent > 0)
    ensures Grows(zoom, shown, start, extent, surface, AxisScale(zoom, shown, start, extent, surface))
  {
    if shown {
      var c, e, requested := Center(start, extent), extent as real, Requested(zoom);
      var max := 2.0 * Min(c, surface as real - c);
      assert max == Room(start, extent, surface) as real;
      Quotient(max, e);
      ScaleGrowsBy(requested, e, max, max / e);
    }
  }

  lemma ProductLess(a: real, b: real, c: real)
    requires a < b && 0.0 < c
    ensures a * c < b * c && c * a < c * b
  {}

  /** The arithmetic of DestinationScale. */
  lemma ScaleGrowsBy(requested: real, e: real, max: real, q: real)
    requires requested > 1.0 && e > 0.0 && e * q == max
    ensures var m := Min(requested, q);
      var scale := if m < 1.0 then 1.0 else m;
      || (scale == requested && e * scale <= max) || (1.0 <= scale < requested && e * scale == max)
      || (scale == 1.0 && e > max)
  {
    if requested <= q {
      Monotone(requested, q, e);
    } else if q < 1.0 {
      ProductLess(q, 1.0, e);
    }
  }

  lemma ExtentNearest(scale: real, extent: int)
    requires 0 < extent && 1.0 <= scale
    ensures -1.0 <= 2.0 * (RenderExtent(scale, extent) as real - extent as real * scale) <= 1.0
  {
    var e := extent as real;
    assert e * 1.0 == e;
    Monotone(1.0, scale, e);
  }

  lemma WindowTimesZoom(zoom: int, scale: real, expected: int)
    requires zoom > 100
    ensures WindowExtent(zoom, scale, expected) * zoom as real == 100.0 * expected as real * scale
  {
    var n, z := expected as real * scale, zoom as real;
    Quotient(n, z / 100.0);
    assert (n / (z / 100.0)) * (z / 100.0) == n;
    Hundredfold(WindowExtent(zoom, scale, expected), z, n);
    assert 100.0 * n == 100.0 * expected as real * scale;
  }

  lemma Hundredfold(w: real, z: real, n: real)
    requires w * (z / 100.0) == n
    ensures w * z == 100.0 * n
  {
    assert w * z == 100.0 * (w * (z / 100.0));
  }

  lemma AxisMagnified(zoom: int, shown: bool, start: int, extent: int, surface: int, expected: int, rendered: int)
    requires zoom > 100 && (shown ==> extent > 0)
    requires var scale := AxisScale(zoom, shown, start, extent, surface);
      rendered == if shown then RenderExtent(scale, extent) else extent
    ensures var scale := AxisScale(zoom, shown, start, extent, surface);
      Magnified(zoom, shown, start, extent, surface, expected, rendered, WindowExtent(zoom, scale, expected), scale)
  {
    var scale := AxisScale(zoom, shown, start, extent, surface);
    assert Requested(zoom) > 1.0;
    AtLeastOne(zoom, shown, start, extent, surface);
    ScaleGrows(zoom, shown, start, extent, surface);
    WindowTimesZoom(zoom, scale, expected);
    if shown {
      ExtentNearest(scale, extent);
    }
  }

  /** A viewport that fills the surface cannot grow: the window takes up the whole zoom. */
  lemma FullViewportMagnifies(zoom: int, extent: int, expected: int, rendered: int, window: real, scale: real)
    requires zoom > 100 && extent > 0
    requires Magnified(zoom, true, 0, extent, extent, expected, rendered, window, scale)
    ensures window * zoom as real == 100.0 * expected as real && rendered == extent
  {
    FullScaleIsOne(zoom, extent, scale);
    TimesOne(extent as real);
    TimesOne(100.0 * expected as real);
  }

  lemma TimesOne(x: real)
    ensures x * 1.0 == x
  {}

  lemma FullScaleIsOne(zoom: int, extent: int, scale: real)
    requires zoom > 100 && extent > 0 && Grows(zoom, true, 0, extent, extent, scale)
    ensures scale == 1.0
  {
    assert Room(0, extent, extent) == extent;
    AtMostOne(extent as real, scale);
  }

  lemma AtMostOne(e: real, scale: real)
    requires 0.0 < e
    ensures e * scale <= e ==> scale <= 1.0
  {
    if scale > 1.0 {
      ProductLess(1.0, scale, e);
    }
  }

  // ----- one axis of the pan window -----

  function Edge(extent: real): real { extent * 0.05 }

  /** The new offset of a window of `extent` over a screen of `expected`, from the old offset and the cursor. */
  function Pan(offset: real, extent: real, expected: real, cursor: real): real {
    var followed :=
      if cursor < offset + Edge(extent) then cursor - Edge(extent)
      else if cursor > offset + extent - Edge(extent) then cursor - extent + Edge(extent)
      else offset;
    if followed < 0.0 then 0.0
    else if followed + extent > expected then expected - extent
    else followed
  }

  predicate OnScreen(offset: real, extent: real, expected: real) { 0.0 <= offset && offset + extent <= expected }

  predicate Central(offset: real, extent: real, cursor: real) {
    offset + Edge(extent) <= cursor <= offset + extent - Edge(extent)
  }

  function Distance(a: real, b: real): real { if a < b then b - a else a - b }

  /** The window is on the screen, shows any cursor on the screen, and does not move again for the same cursor. */
  lemma PanInside(offset: real, extent: real, expected: real, cursor: real)
    requires 0.0 <= extent <= expected
    ensures var o := Pan(offset, extent, expected, cursor);
      && OnScreen(o, extent, expected)
      && (0.0 <= cursor <= expected ==> o <= cursor <= o + extent)
      && Pan(o, extent, expected, cursor) == o
  {}

  /** Among the offsets on the screen that keep the cursor out of the edge bands, the window takes the one nearest to
      where it was; a window that is already such an offset stays. */
  lemma PanIsNearest(offset: real, extent: real, expected: real, cursor: real, other: real)
    requires 0.0 <= extent <= expected && OnScreen(other, extent, expected) && Central(other, extent, cursor)
    ensures var o := Pan(offset, extent, expected, cursor);
      && OnScreen(o, extent, expected) && Central(o, extent, cursor)
      && Distance(o, offset) <= Distance(other, offset)
      && (OnScreen(offset, extent, expected) && Central(offset, extent, cursor) ==> o == offset)
  {}

  /** What a zoomed redraw achieves along an axis: it magnifies, the window is on the screen, contains any cursor on the
      screen, and does not move again for the same cursor. */
  ghost predicate GoodAxis(
    zoom: int, shown: bool, start: int, extent: int, surface: int, expected: int, rendered: int, offset: real,
    window: real, cursor: int)
  {
    && (exists scale: real :: Magnified(zoom, shown, start, extent, surface, expected, rendered, window, scale))
    && 0.0 < window && OnScreen(offset, window, expected as real)
    && (0 <= cursor <= expected ==> offset <= cursor as real <= offset + window)
    && Pan(offset, window, expected as real, cursor as real) == offset
  }

  lemma ZoomedAxis(
    zoom: int, shown: bool, start: int, extent: int, surface: int, expected: int, rendered: int, before: real,
    cursor: int)
    requires zoom > 100 && expected > 0 && (shown ==> extent > 0)
    requires rendered == if shown then RenderExtent(AxisScale(zoom, shown, start, extent, surface), extent) else extent
    ensures var window := WindowExtent(zoom, AxisScale(zoom, shown, start, extent, surface), expected);
      GoodAxis(zoom, shown, start, extent, surface, expected, rendered,
               Pan(before, window, expected as real, cursor as real), window, cursor)
  {
    var window := WindowExtent(zoom, AxisScale(zoom, shown, start, extent, surface), expected);
    WindowWithinScreen(zoom, shown, start, extent, surface, expected);
    AxisMagnified(zoom, shown, start, extent, surface, expected, rendered);
    PanInside(before, window, expected as real, cursor as real);
  }

  // ----- the renderer -----

  /** A drawn frame: the viewport on the surface, the part of the screen that fills it, and the part reported to the
      view; `texels` is the row length of the texture behind a buffer `bufferW` pixels wide. */
  datatype Frame = Frame(
    render: Rect, source: Source, reported: Source, bufferW: int, bufferH: int, texels: int)

  datatype Cursor = Cursor(x: int, y: int, width: int, height: int, xhot: int, yhot: int)

  class Renderer {
    var viewport: Rect
    var expectedW: nat
    var expectedH: nat
    var zoom: int
    var left: real                                     // zoomSourceLeft
    var top: real

    ghost predicate Valid() reads this { 100 <= zoom <= 400 && (zoom == 100 ==> left == 0.0 && top == 0.0) }

    constructor ()
      ensures Valid() && zoom == 100 && expectedW == 0 && expectedH == 0
    {
      viewport, expectedW, expectedH, zoom, left, top := Rect(0, 0, 0, 0), 0, 0, 100, 0.0, 0.0;
    }

    method SetViewport(r: Rect, ew: nat, eh: nat)
      requires Valid()
      modifies this`viewport, this`expectedW, this`expectedH
      ensures Valid() && viewport == r && expectedW == ew && expectedH == eh
    {
      viewport, expectedW, expectedH := r, ew, eh;
    }

    /** rendererSetZoom */
    method SetZoom(percent: int)
      requires Valid()
      modifies this`zoom, this`left, this`top
      ensures Valid() && (100 <= percent <= 400 ==> zoom == percent)
      ensures percent < 100 ==> zoom == 100
      ensures percent > 400 ==> zoom == 400
      ensures zoom != 100 ==> left == old(left) && top == old(top)
    {
      zoom := if percent < 100 then 100 else if percent > 400 then 400 else percent;
      if zoom == 100 {
        left, top := 0.0, 0.0;
      }
    }

    ghost predicate Expected(bufferW: int, bufferH: int) reads this {
      && expectedW != 0 && expectedH != 0 && bufferH == expectedH
      && (bufferW == expectedW || bufferW == expectedW - expectedW % 8)
    }

    /** The part of rendererRedrawLocked that enlarges the viewport. */
    method ZoomViewport(surfaceW: int, surfaceH: int) returns (render: Rect, scaleX: real, scaleY: real)
      requires Valid()
      ensures render == Rendered(zoom, viewport, surfaceW, surfaceH)
      ensures scaleX == ScaleX(zoom, viewport, surfaceW) && scaleY == ScaleY(zoom, viewport, surfaceH)
      ensures Inside(viewport, surfaceW, surfaceH) ==> Inside(render, surfaceW, surfaceH)
      ensures Shown(viewport) ==> Shown(render)
    {
      render, scaleX, scaleY := viewport, 1.0, 1.0;
      if zoom > 100 && viewport.width > 0 && viewport.height > 0 {
        scaleX := DestinationScale(Requested(zoom), viewport.left, viewport.width, surfaceW);
        scaleY := DestinationScale(Requested(zoom), viewport.top, viewport.height, surfaceH);
        var w, h := RenderExtent(scaleX, viewport.width), RenderExtent(scaleY, viewport.height);
        var x, y := RenderStart(viewport.left, viewport.width, w), RenderStart(viewport.top, viewport.height, h);
        render := Rect(x, y, w, h);
      }
      if Inside(viewport, surfaceW, surfaceH) {
        RenderedInside(zoom, viewport, surfaceW, surfaceH);
      }
      if Shown(viewport) {
        RenderedShown(zoom, viewport, surfaceW, surfaceH);
      }
    }

    /** The part of rendererRedrawLocked that sizes and pans the window of a zoomed frame. */
    method ZoomWindow(surfaceW: int, surfaceH: int, scaleX: real, scaleY: real, cursor: Cursor) returns (source: Source)
      requires Valid() && zoom > 100 && expectedW != 0 && expectedH != 0
      requires scaleX == ScaleX(zoom, viewport, surfaceW) && scaleY == ScaleY(zoom, viewport, surfaceH)
      modifies this`left, this`top
      ensures source.left == left && source.top == top
      ensures source.width == WindowExtent(zoom, scaleX, expectedW)
      ensures source.height == WindowExtent(zoom, scaleY, expectedH)
      ensures left == Pan(old(left), source.width, expectedW as real, cursor.x as real)
      ensures top == Pan(old(top), source.height, expectedH as real, cursor.y as real)
      ensures var r := Rendered(zoom, viewport, surfaceW, surfaceH);
        && GoodAxis(zoom, Shown(viewport), viewport.left, viewport.width, surfaceW, expectedW, r.width, left,
                    source.width, cursor.x)
        && GoodAxis(zoom, Shown(viewport), viewport.top, viewport.height, surfaceH, expectedH, r.height, top,
                    source.height, cursor.y)
    {
      var width := WindowExtent(zoom, scaleX, expectedW);
      var height := WindowExtent(zoom, scaleY, expectedH);
      ghost var r, shown := Rendered(zoom, viewport, surfaceW, surfaceH), Shown(viewport);
      ZoomedAxis(zoom, shown, viewport.left, viewport.width, surfaceW, expectedW, r.width, left, cursor.x);
      ZoomedAxis(zoom, shown, viewport.top, viewport.height, surfaceH, expectedH, r.height, top, cursor.y);
      left := Pan(left, width, expectedW as real, cursor.x as real);
      top := Pan(top, height, expectedH as real, cursor.y as real);
      source := Source(left, top, width, height);
    }

    /** rendererRedrawLocked, as far as it computes positions. */
    method Redraw(surfaceW: int, surfaceH: int, bufferW: int, bufferH: int, texels: int, cursor: Cursor)
        returns (frame: Option<Frame>)
      requires Valid()
      modifies this`left, this`top
      ensures Valid()
      ensures frame.Some? <==> Expected(bufferW, bufferH)
      ensures frame.None? ==> left == old(left) && top == old(top)
      ensures frame.Some? && Shown(viewport) && bufferW > 0 && texels > 0 ==> Drawable(frame.value)
      ensures frame.Some? && zoom > 100 ==>
        var f := frame.value;
        && GoodAxis(zoom, Shown(viewport), viewport.left, viewport.width, surfaceW, expectedW, f.render.width, left,
                    f.source.width, cursor.x)
        && GoodAxis(zoom, Shown(viewport), viewport.top, viewport.height, surfaceH, expectedH, f.render.height, top,
                    f.source.height, cursor.y)
      ensures frame.Some? ==>
        var f := frame.value;
        && f.bufferW == bufferW && f.bufferH == bufferH && f.texels == texels
        && (Inside(viewport, surfaceW, surfaceH) ==> Inside(f.render, surfaceW, surfaceH))
        && (zoom == 100 ==>
              && f.render == viewport && f.source == Source(0.0, 0.0, bufferW as real, bufferH as real)
              && f.reported == Source(0.0, 0.0, expectedW as real, expectedH as real))
        && f.render == Rendered(zoom, viewport, surfaceW, surfaceH)
        && f.reported.left == f.source.left && f.reported.top == f.source.top
        && f.reported.height == f.source.height
        && (f.reported.width == f.source.width <==> zoom > 100 || bufferW == expectedW)
        && (zoom > 100 ==>
              && f.reported == f.source && f.source.left == left && f.source.top == top
              && f.source.width == WindowExtent(zoom, ScaleX(zoom, viewport, surfaceW), expectedW)
              && f.source.height == WindowExtent(zoom, ScaleY(zoom, viewport, surfaceH), expectedH)
              && left == Pan(old(left), f.source.width, expectedW as real, cursor.x as real)
              && top == Pan(old(top), f.source.height, expectedH as real, cursor.y as real))
    {
      var alignedW := expectedW - expectedW % 8;
      if expectedW == 0 || expectedH == 0 || bufferH != expectedH || (bufferW != alignedW && bufferW != expectedW) {
        return None;
      }
      var render, scaleX, scaleY := ZoomViewport(surfaceW, surfaceH);
      var source := Source(0.0, 0.0, bufferW as real, bufferH as real);
      var reported := Source(0.0, 0.0, expectedW as real, expectedH as real);
      if zoom > 100 {
        source := ZoomWindow(surfaceW, surfaceH, scaleX, scaleY, cursor);
        reported := source;
      } else {
        left, top := 0.0, 0.0;
      }
      frame := Some(Frame(render, source, reported, bufferW, bufferH, texels));
    }
  }

  // ----- drawing and touching -----

  /** Surface position of a horizontal clip coordinate under the frame's GL viewport. */
  function SurfaceX(f: Frame, ndc: real): real { f.render.left as real + (ndc + 1.0) / 2.0 * f.render.width as real }

  /** The same for the vertical one: drawRegion negates it, GL counts rows from the bottom of the surface. */
  function SurfaceY(f: Frame, surfaceH: int, ndc: real): real {
    surfaceH as real
      - ((surfaceH - f.render.top - f.render.height) as real + (-ndc + 1.0) / 2.0 * f.render.height as real)
  }

  predicate Drawable(f: Frame) {
    && f.render.width > 0 && f.render.height > 0 && f.bufferW > 0 && f.bufferH > 0 && f.texels > 0
    && f.source.width > 0.0 && f.source.height > 0.0
  }

  /** Texture coordinate of a screen column: xfactor accounts for rows longer than the buffer is wide. */
  function TextureU(f: Frame, x: real): real requires f.bufferW > 0 && f.texels > 0 {
    x / f.bufferW as real * (f.bufferW as real / f.texels as real)
  }

  function TextureV(f: Frame, y: real): real requires f.bufferH > 0 { y / f.bufferH as real }

  /** Where the root quad, spanned from -1 to 1 with texture coordinates u0 to u1, shows texture coordinate u. */
  function QuadPosition(u0: real, u1: real, u: real): real requires u0 != u1 { -1.0 + 2.0 * (u - u0) / (u1 - u0) }

  /** getInputTransform on one axis. */
  function InputAt(start: int, extent: int, sourceStart: real, sourceExtent: real, p: real): real requires extent != 0 {
    (p - start as real) * (sourceExtent / extent as real) + sourceStart
  }

  function InputX(f: Frame, p: real): real requires f.render.width != 0 {
    InputAt(f.render.left, f.render.width, f.reported.left, f.reported.width, p)
  }

  function InputY(f: Frame, p: real): real requires f.render.height != 0 {
    InputAt(f.render.top, f.render.height, f.reported.top, f.reported.height, p)
  }

  lemma TextureScaled(f: Frame, x: real)
    requires f.bufferW > 0 && f.texels > 0
    ensures TextureU(f, x) == x / f.texels as real
  {
    var b, t := f.bufferW as real, f.texels as real;
    Quotient(x, b);
    Cancel(x / b, b, t);
  }

  lemma Cancel(a: real, b: real, t: real)
    requires t > 0.0
    ensures a * (b / t) == (a * b) / t
  {
    Quotient(b, t);
    Quotient(a * b, t);
    SameProduct(a * (b / t), (a * b) / t, t);
  }

  lemma SameProduct(p: real, q: real, t: real)
    requires t > 0.0 && p * t == q * t
    ensures p == q
  {}

  /** The scale of a texture does not show: the quad puts x at its share of the window. */
  lemma QuadShare(left: real, width: real, x: real, t: real)
    requires 0.0 < width && 0.0 < t
    ensures left / t != (left + width) / t
    ensures QuadPosition(left / t, (left + width) / t, x / t) == 2.0 * ((x - left) / width) - 1.0
  {
    var u0, u1, u := left / t, (left + width) / t, x / t;
    Difference(left, left + width, t);
    Difference(left, x, t);
    Quotient(width, t);
    Ratio(x - left, width, t);
    Twice(u - u0, u1 - u0);
  }

  lemma Difference(a: real, b: real, t: real)
    requires t > 0.0
    ensures b / t - a / t == (b - a) / t
  {}

  lemma Ratio(a: real, b: real, t: real)
    requires 0.0 < b && 0.0 < t
    ensures b / t != 0.0 && (a / t) / (b / t) == a / b
  {
    Quotient(a, b);
    Quotient(b, t);
    Cancel(a / b, b, t);
    Quotient((a / b) * (b / t), b / t);
  }

  lemma Twice(a: real, b: real)
    requires b != 0.0
    ensures 2.0 * a / b == 2.0 * (a / b)
  {}

  /** Where column x of the screen is drawn. */
  function DrawnX(f: Frame, x: real): real requires Drawable(f) {
    TextureScaled(f, f.source.left);
    TextureScaled(f, f.source.left + f.source.width);
    QuadShare(f.source.left, f.source.width, x, f.texels as real);
    SurfaceX(f, QuadPosition(TextureU(f, f.source.left), TextureU(f, f.source.left + f.source.width), TextureU(f, x)))
  }

  /** Where row y of the screen is drawn. */
  function DrawnY(f: Frame, surfaceH: int, y: real): real requires Drawable(f) {
    QuadShare(f.source.top, f.source.height, y, f.bufferH as real);
    var v0, v1 := TextureV(f, f.source.top), TextureV(f, f.source.top + f.source.height);
    SurfaceY(f, surfaceH, QuadPosition(v0, v1, TextureV(f, y)))
  }

  lemma InputOfShare(start: int, extent: int, sourceStart: real, sourceExtent: real, share: real)
    requires extent > 0
    ensures InputAt(start, extent, sourceStart, sourceExtent, start as real + share * extent as real)
         == sourceStart + share * sourceExtent
  {
    var e := extent as real;
    Quotient(sourceExtent, e);
    assert (share * e) * (sourceExtent / e) == share * (e * (sourceExtent / e));
  }

  lemma DrawnColumn(f: Frame, x: real)
    requires Drawable(f)
    ensures DrawnX(f, x) == f.render.left as real + ((x - f.source.left) / f.source.width) * f.render.width as real
  {
    TextureScaled(f, x);
    TextureScaled(f, f.source.left);
    TextureScaled(f, f.source.left + f.source.width);
    QuadShare(f.source.left, f.source.width, x, f.texels as real);
  }

  lemma DrawnRow(f: Frame, surfaceH: int, y: real)
    requires Drawable(f)
    ensures DrawnY(f, surfaceH, y)
         == f.render.top as real + ((y - f.source.top) / f.source.height) * f.render.height as real
  {
    QuadShare(f.source.top, f.source.height, y, f.bufferH as real);
    FlipShare(f.render.top as real, f.render.height as real, surfaceH as real, (y - f.source.top) / f.source.height);
  }

  lemma FlipShare(top: real, height: real, surfaceH: real, share: real)
    ensures surfaceH - ((surfaceH - top - height) + (-(2.0 * share - 1.0) + 1.0) / 2.0 * height) == top + share * height
  {}

  lemma ShareIff(x: real, left: real, width: real, reported: real)
    requires width > 0.0
    ensures left + ((x - left) / width) * reported == x <==> x == left || reported == width
  {
    var share := (x - left) / width;
    Quotient(x - left, width);
    assert share * reported == share * width <==> share == 0.0 || reported == width by {
      if share != 0.0 && share * reported == share * width {
        assert share * (reported - width) == 0.0;
      }
    }
  }

  /** A touch on the place where a column of the screen is drawn is reported as exactly that column if and only if the
      window drawn and the window reported have the same width, or the column is the window's edge. */
  lemma TouchMeetsColumn(f: Frame, x: real)
    requires Drawable(f) && f.reported.left == f.source.left
    ensures InputX(f, DrawnX(f, x)) == x <==> x == f.source.left || f.reported.width == f.source.width
  {
    DrawnColumn(f, x);
    TouchOnAxis(f.render.left, f.render.width, f.source.left, f.source.width, f.reported.width, x);
  }

  /** The same for rows; GL and Android count them from opposite sides. */
  lemma TouchMeetsRow(f: Frame, surfaceH: int, y: real)
    requires Drawable(f) && f.reported.top == f.source.top
    ensures InputY(f, DrawnY(f, surfaceH, y)) == y <==> y == f.source.top || f.reported.height == f.source.height
  {
    DrawnRow(f, surfaceH, y);
    TouchOnAxis(f.render.top, f.render.height, f.source.top, f.source.height, f.reported.height, y);
  }

  lemma TouchOnAxis(start: int, extent: int, sourceStart: real, drawn: real, reported: real, x: real)
    requires extent > 0 && drawn > 0.0
    ensures var p := start as real + ((x - sourceStart) / drawn) * extent as real;
      InputAt(start, extent, sourceStart, reported, p) == x <==> x == sourceStart || reported == drawn
  {
    InputOfShare(start, extent, sourceStart, reported, (x - sourceStart) / drawn);
    ShareIff(x, sourceStart, drawn, reported);
  }

  /** drawCursor: left or top edge of the cursor quad, and its extent, in clip coordinates. */
  function CursorStart(position: int, hot: int, sourceStart: real, sourceExtent: real): real
    requires sourceExtent != 0.0
  {
    2.0 * (position as real - sourceStart - hot as real) / sourceExtent - 1.0
  }

  function CursorExtent(extent: int, sourceExtent: real): real requires sourceExtent != 0.0 {
    2.0 * extent as real / sourceExtent
  }

  /** The hotspot, `hot` pixels into a cursor image of `extent` pixels. */
  function Hotspot(position: int, hot: int, extent: int, sourceStart: real, sourceExtent: real): real
    requires sourceExtent != 0.0 && extent != 0
  {
    CursorStart(position, hot, sourceStart, sourceExtent)
      + CursorExtent(extent, sourceExtent) * (hot as real / extent as real)
  }

  lemma HotspotShare(position: int, hot: int, extent: int, sourceStart: real, sourceExtent: real)
    requires 0.0 < sourceExtent && 0 < extent
    ensures Hotspot(position, hot, extent, sourceStart, sourceExtent)
         == 2.0 * ((position as real - sourceStart) / sourceExtent) - 1.0
  {
    var e, h, w, d := extent as real, hot as real, sourceExtent, position as real - sourceStart;
    Quotient(h, e);
    Twice(e, w);
    Twice(d - h, w);
    assert e / w * (h / e) == h / w by { Cancel(h / e, e, w); }
    assert (d - h) / w + h / w == d / w;
  }

  /** The hotspot is drawn on the screen point it points at. */
  lemma HotspotOnItsPoint(f: Frame, surfaceH: int, c: Cursor)
    requires Drawable(f) && c.width > 0 && c.height > 0
    ensures SurfaceX(f, Hotspot(c.x, c.xhot, c.width, f.source.left, f.source.width)) == DrawnX(f, c.x as real)
    ensures SurfaceY(f, surfaceH, Hotspot(c.y, c.yhot, c.height, f.source.top, f.source.height))
         == DrawnY(f, surfaceH, c.y as real)
  {
    HotspotShare(c.x, c.xhot, c.width, f.source.left, f.source.width);
    HotspotShare(c.y, c.yhot, c.height, f.source.top, f.source.height);
    DrawnColumn(f, c.x as real);
    DrawnRow(f, surfaceH, c.y as real);
    var share := (c.y as real - f.source.top) / f.source.height;
    FlipShare(f.render.top as real, f.render.height as real, surfaceH as real, share);
  }

  /** So a touch on the hotspot gives back the cursor position under the same condition as for any other point. */
  lemma TouchOnHotspot(f: Frame, surfaceH: int, c: Cursor)
    requires Drawable(f) && c.width > 0 && c.height > 0
    requires f.reported.left == f.source.left && f.reported.top == f.source.top
    ensures InputX(f, SurfaceX(f, Hotspot(c.x, c.xhot, c.width, f.source.left, f.source.width))) == c.x as real
       <==> c.x as real == f.source.left || f.reported.width == f.source.width
    ensures InputY(f, SurfaceY(f, surfaceH, Hotspot(c.y, c.yhot, c.height, f.source.top, f.source.height)))
            == c.y as real
       <==> c.y as real == f.source.top || f.reported.height == f.source.height
  {
    HotspotOnItsPoint(f, surfaceH, c);
    TouchMeetsColumn(f, c.x as real);
    TouchMeetsRow(f, surfaceH, c.y as real);
  }

  lemma ExtentShown(scale: real, extent: int)
    requires 0 < extent && 1.0 <= scale
    ensures extent <= RenderExtent(scale, extent)
  {
    var e := extent as real;
    assert e * 1.0 == e;
    Monotone(1.0, scale, e);
  }

  lemma RenderedShown(zoom: int, viewport: Rect, surfaceW: int, surfaceH: int)
    requires Shown(viewport)
    ensures Shown(Rendered(zoom, viewport, surfaceW, surfaceH))
  {
    if zoom > 100 {
      assert Requested(zoom) > 1.0;
      AtLeastOne(zoom, true, viewport.left, viewport.width, surfaceW);
      AtLeastOne(zoom, true, viewport.top, viewport.height, surfaceH);
      ExtentShown(ScaleX(zoom, viewport, surfaceW), viewport.width);
      ExtentShown(ScaleY(zoom, viewport, surfaceH), viewport.height);
    }
  }

  /** The cursor image shows, and there is a viewport and a buffer to show it on. */
  predicate CursorShown(viewport: Rect, bufferW: int, texels: int, c: Cursor) {
    Shown(viewport) && bufferW > 0 && texels > 0 && c.width > 0 && c.height > 0
  }

  /** A view that handled the report of a frame translates touches as the frame says. */
  lemma InputOf(view: View, f: Frame)
    requires Drawable(f) && view.inputViewport == f.render && view.inputSource == f.reported
    ensures forall p :: view.InputColumn(p) == InputX(f, p)
    ensures forall p :: view.InputRow(p) == InputY(f, p)
  {}

  /** A redraw and the handling of its report.  A touch on the drawn hotspot is then translated, from the view's own
      fields, to the cursor's row, and to its column if and only if the frame is zoomed, or the buffer has the expected
      width, or it is column 0. */
  method ShowFrame(
    renderer: Renderer, view: View, surfaceW: int, surfaceH: int, bufferW: int, bufferH: int, texels: int, c: Cursor)
    returns (frame: Option<Frame>)
    requires renderer.Valid()
    modifies renderer`left, renderer`top, view`inputViewport, view`inputSource
    ensures renderer.Valid() && (frame.Some? <==> renderer.Expected(bufferW, bufferH))
    ensures frame.Some? ==> frame.value.bufferW == bufferW
    ensures frame.Some? && CursorShown(renderer.viewport, bufferW, texels, c) ==>
      var f := frame.value;
      && Drawable(f) && view.inputViewport.width != 0 && view.inputViewport.height != 0
      && view.InputRow(SurfaceY(f, surfaceH, Hotspot(c.y, c.yhot, c.height, f.source.top, f.source.height)))
         == c.y as real
      && (view.InputColumn(SurfaceX(f, Hotspot(c.x, c.xhot, c.width, f.source.left, f.source.width))) == c.x as real
          <==> renderer.zoom > 100 || bufferW == renderer.expectedW || c.x == 0)
  {
    frame := renderer.Redraw(surfaceW, surfaceH, bufferW, bufferH, texels, c);
    if frame.Some? {
      var f := frame.value;
      view.SetRendererViewport(f.render, f.reported);
      if CursorShown(renderer.viewport, bufferW, texels, c) {
        TouchOnHotspot(f, surfaceH, c);
        InputOf(view, f);
      }
    }
  }

  /** A 1366 pixel wide screen at zoom 100, whose buffer the server rounded down to 1360 pixels: a touch on a cursor at
      column 1359 misses it. */
  method NarrowBufferMisses() returns (renderer: Renderer, view: View, frame: Frame)
    ensures renderer.zoom == 100 && renderer.expectedW == 1366 && frame.bufferW == 1360 && Drawable(frame)
    ensures view.inputViewport.width != 0
    ensures view.InputColumn(SurfaceX(frame, Hotspot(1359, 0, 16, frame.source.left, frame.source.width))) != 1359.0
  {
    renderer := new Renderer();
    view := new View();
    renderer.SetViewport(Rect(0, 0, 1366, 768), 1366, 768);
    var drawn := ShowFrame(renderer, view, 1366, 768, 1360, 768, 1360, Cursor(1359, 0, 16, 16, 0, 0));
    frame := drawn.value;
  }
}
