/**
 * The canvas that shows a layout snapshot: screen/millimetre conversion at a
 * zoom factor, and the translation of mouse events into canvas messages.
 * Drawing is left out; only the state and the event handling are modelled.
 */
module CanvasWidget {
  import opened Wrappers
  import opened Layout
  import opened FloatMath

  /** Screen pixels per millimetre at zoom 1 (96 DPI). */
  const PixelsPerMm: real := 96.0 / 25.4

  const MinZoom: real := 0.1
  const MaxZoom: real := 5.0

  /** `LayoutCanvas::mm_to_pixels`, with the canvas zoom as a parameter: 96 pixels per inch at zoom 1. */
  function MmToPixels(mm: real, zoom: real): (r: real)
    ensures r * 25.4 == mm * 96.0 * zoom
    ensures mm >= 0.0 && zoom >= 0.0 ==> r >= 0.0
  {
    mm * PixelsPerMm * zoom
  }

  /** `LayoutCanvas::pixels_to_mm`, with the canvas zoom as a parameter. */
  function PixelsToMm(pixels: real, zoom: real): (r: real)
    requires zoom > 0.0
    ensures MmToPixels(r, zoom) == pixels
  {
    var q := PixelsPerMm * zoom;
    var r := pixels / q;
    assert r * q == pixels;
    assert MmToPixels(r, zoom) == r * q;
    r
  }

  /** Converting to pixels and back gives the original length, at any positive zoom. */
  lemma MmPixelsRoundTrip(mm: real, zoom: real)
    requires zoom > 0.0
    ensures PixelsToMm(MmToPixels(mm, zoom), zoom) == mm
  {
    var q := PixelsPerMm * zoom;
    assert MmToPixels(mm, zoom) == mm * q;
    assert (mm * q) / q == mm;
  }

  /** At zoom 1 an A4 page is 793.7 screen pixels wide (210 mm at 96 DPI). */
  lemma A4WidthOnScreen()
    ensures 793.7 < MmToPixels(210.0, 1.0) < 793.8
  {
  }

  /** `ImageCache`: a set of paths, kept for later use; loading never yields an image. */
  class ImageCache {
    var entries: map<string, ()>

    /** `ImageCache::new`. */
    constructor ()
      ensures entries == map[]
    {
      entries := map[];
    }

    /** `ImageCache::load`: always none, and the cache is left as it is. */
    method Load(path: string) returns (r: Option<()>)
      ensures r.None?
    {
      r := None;
    }

    /** `ImageCache::clear`. */
    method Clear()
      modifies this
      ensures entries == map[]
    {
      entries := map[];
    }

    /** `ImageCache::invalidate`: forgets one path and keeps every other entry. */
    method Invalidate(path: string)
      modifies this
      ensures entries == old(entries) - {path}
      ensures path !in entries
      ensures forall p :: p in old(entries) && p != path ==> p in entries
    {
      entries := entries - {path};
    }
  }

  /** The eight handles on a selected image's frame. */
  datatype ResizeHandle = TopLeft | Top | TopRight | Right | BottomRight | Bottom | BottomLeft | Left

  /**
   * The messages the canvas emits. `StartResize` is handled by the application
   * but never produced by `Update`.
   */
  datatype CanvasMessage =
    | SelectImage(id: string)
    | StartResize(resizeId: string, handle: ResizeHandle)
    | DeselectAll
    | ImageMoved(movedId: string, xMm: real, yMm: real)
    | ImageResized(resizedId: string, widthMm: real, heightMm: real)
    | CanvasClicked(clickXMm: real, clickYMm: real)
    | MouseMoved(cursorXMm: real, cursorYMm: real)
    | MouseReleased

  datatype MouseButton = LeftButton | RightButton | MiddleButton | OtherButton

  datatype MouseEvent =
    | ButtonPressed(pressed: MouseButton)
    | ButtonReleased(released: MouseButton)
    | CursorMoved
    | CursorEntered
    | CursorLeft
    | WheelScrolled

  /** A canvas event: a mouse event, or anything else (keyboard, touch). */
  datatype CanvasEvent = Mouse(mouse: MouseEvent) | OtherEvent

  /** Whether the canvas consumed an event. */
  datatype Status = Ignored | Captured

  /** `LayoutCanvas`: a snapshot of the layout, the zoom and the image cache. */
  class LayoutCanvas {
    var layout: LayoutData
    var zoom: real
    const imageCache: ImageCache

    ghost predicate Valid()
      reads this
    {
      MinZoom <= zoom <= MaxZoom
    }

    /** `LayoutCanvas::new`: zoom 1 and an empty image cache. */
    constructor (layout: LayoutData)
      ensures Valid()
      ensures this.layout == layout && zoom == 1.0
      ensures fresh(imageCache) && imageCache.entries == map[]
    {
      this.layout := layout;
      zoom := 1.0;
      imageCache := new ImageCache();
    }

    /** `LayoutCanvas::set_layout`: replaces the snapshot; the zoom stays. */
    method SetLayout(layout: LayoutData)
      modifies this`layout
      ensures this.layout == layout
    {
      this.layout := layout;
    }

    /** `LayoutCanvas::set_zoom`: the requested zoom, clamped to [0.1, 5]. */
    method SetZoom(zoom: real)
      modifies this`zoom
      ensures Valid()
      ensures this.zoom == Clamp(zoom, MinZoom, MaxZoom)
    {
      this.zoom := Clamp(zoom, MinZoom, MaxZoom);
    }

    /**
     * `Program::update`. `cursorInBounds` is the cursor position relative to
     * the canvas bounds, or none when the cursor is outside them. A left press
     * selects the topmost image under the cursor or deselects all; a cursor
     * move reports the position in millimetres; a left release ends a drag.
     * Every other event, and every event outside the bounds, is ignored.
     */
    function Update(event: CanvasEvent, cursorInBounds: Option<(real, real)>): (r: (Status, Option<CanvasMessage>))
      reads this
      requires Valid()
      ensures r.0 == Ignored <==> r.1.None?
      ensures cursorInBounds.None? ==> r == (Ignored, None)
      ensures cursorInBounds.Some? && event == Mouse(ButtonPressed(LeftButton)) ==>
                var (px, py) := cursorInBounds.value;
                var hit := FindImageAtPoint(layout.images, PixelsToMm(px, zoom), PixelsToMm(py, zoom));
                && r.0 == Captured
                && (hit.Some? ==> r.1 == Some(SelectImage(hit.value.id)))
                && (r.1 == Some(DeselectAll) <==> hit.None?)
      ensures cursorInBounds.Some? && event == Mouse(CursorMoved) ==>
                r == (Captured, Some(MouseMoved(PixelsToMm(cursorInBounds.value.0, zoom),
                                                PixelsToMm(cursorInBounds.value.1, zoom))))
      ensures cursorInBounds.Some? && event == Mouse(ButtonReleased(LeftButton)) ==> r == (Captured, Some(MouseReleased))
      ensures event !in {Mouse(ButtonPressed(LeftButton)), Mouse(CursorMoved), Mouse(ButtonReleased(LeftButton))} ==> r == (Ignored, None)
    {
      match cursorInBounds
      case None => (Ignored, None)
      case Some((px, py)) =>
        if event == Mouse(ButtonPressed(LeftButton)) then
          var xMm := PixelsToMm(px, zoom);
          var yMm := PixelsToMm(py, zoom);
          match FindImageAtPoint(layout.images, xMm, yMm)
          case Some(image) => (Captured, Some(SelectImage(image.id)))
          case None => (Captured, Some(DeselectAll))
        else if event == Mouse(CursorMoved) then
          (Captured, Some(MouseMoved(PixelsToMm(px, zoom), PixelsToMm(py, zoom))))
        else if event == Mouse(ButtonReleased(LeftButton)) then
          (Captured, Some(MouseReleased))
        else
          (Ignored, None)
    }
  }
}
