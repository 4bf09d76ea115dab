/**
 * The application state `PrintLayout` and its message handlers: selection and
 * the drag state machine (move and eight-handle resize), validated edits of
 * the page and of the selected image, zoom, printer choice, the print guard
 * and the window title. Text inputs reach the handlers already parsed; the
 * text fields that only echo them are left out.
 */
module App {
  import opened Wrappers
  import opened Text
  import opened FloatMath
  import opened Layout
  import opened CanvasWidget
  import Printing
  import opened Config

  /** What a mouse drag on the canvas is doing. */
  datatype DragMode = NoDrag | Move | Resize(handle: ResizeHandle)

  /** `PrintStatus`; `NotPrinting` is the source's `Idle`. */
  datatype PrintStatus = NotPrinting | Rendering | Sending | Completed(jobId: string) | Failed(message: string)

  // ---------------------------------------------------------------------------
  // Resizing

  /** The smallest width or height, in millimetres, a drag can produce. */
  const MinImageSizeMm: real := 10.0

  /** The handles that move the left edge (the right edge stays put). */
  predicate MovesLeftEdge(h: ResizeHandle) {
    h.Left? || h.TopLeft? || h.BottomLeft?
  }

  /** The handles that move the top edge (the bottom edge stays put). */
  predicate MovesTopEdge(h: ResizeHandle) {
    h.Top? || h.TopLeft? || h.TopRight?
  }

  /** The handles whose drag sets the height (the others set the width). */
  predicate DrivesHeight(h: ResizeHandle) {
    h.Top? || h.Bottom?
  }

  /** `new_w / aspect_ratio` with `aspect_ratio = init_w / init_h`: the height that keeps the initial proportions. */
  function HeightForWidth(w: real, initW: real, initH: real): (r: real)
    requires initW != 0.0 && initH != 0.0
    ensures r * initW == w * initH
    ensures w > 0.0 && initW > 0.0 && initH > 0.0 ==> r > 0.0
  {
    var aspect := initW / initH;
    assert aspect * initH == initW;
    var r := w / aspect;
    assert r * aspect == w;
    assert r * initW == r * (aspect * initH);
    PositiveQuotient(initW, initH);
    PositiveQuotient(w, aspect);
    r
  }

  /** `new_h * aspect_ratio`: the width that keeps the initial proportions. */
  function WidthForHeight(h: real, initW: real, initH: real): (r: real)
    requires initW != 0.0 && initH != 0.0
    ensures r * initH == h * initW
    ensures h > 0.0 && initW > 0.0 && initH > 0.0 ==> r > 0.0
  {
    var aspect := initW / initH;
    assert aspect * initH == initW;
    var r := h * aspect;
    assert r * initH == h * (aspect * initH);
    PositiveQuotient(initW, initH);
    PositiveQuotient(h, aspect);
    r
  }

  /**
   * The frame a resize drag gives: `init` is the frame when the drag started
   * and (dx, dy) how far the cursor has moved since. The lemmas below state
   * what it promises about the size, handle by handle; the edges away from
   * the handle stay where they were.
   */
  function ResizedFrame(handle: ResizeHandle, init: Rect, dx: real, dy: real, keepAspect: bool): (r: Rect)
    requires keepAspect ==> init.width != 0.0 && init.height != 0.0
    ensures MovesLeftEdge(handle) ==> r.x + r.width == init.x + init.width
    ensures !MovesLeftEdge(handle) ==> r.x == init.x
    ensures MovesTopEdge(handle) ==> r.y + r.height == init.y + init.height
    ensures !MovesTopEdge(handle) ==> r.y == init.y
  {
    var (x, y, initW, initH) := (init.x, init.y, init.width, init.height);
    match handle
    case BottomRight =>
      var w := Max(initW + dx, MinImageSizeMm);
      var h := if keepAspect then HeightForWidth(w, initW, initH) else Max(initH + dy, MinImageSizeMm);
      Rect(x, y, w, h)
    case BottomLeft =>
      var w := Max(initW - dx, MinImageSizeMm);
      var h := if keepAspect then HeightForWidth(w, initW, initH) else Max(initH + dy, MinImageSizeMm);
      Rect(x + initW - w, y, w, h)
    case TopRight =>
      var w := Max(initW + dx, MinImageSizeMm);
      var h := if keepAspect then HeightForWidth(w, initW, initH) else Max(initH - dy, MinImageSizeMm);
      Rect(x, y + initH - h, w, h)
    case TopLeft =>
      var w := Max(initW - dx, MinImageSizeMm);
      var h := if keepAspect then HeightForWidth(w, initW, initH) else Max(initH - dy, MinImageSizeMm);
      Rect(x + initW - w, y + initH - h, w, h)
    case Right =>
      var w := Max(initW + dx, MinImageSizeMm);
      var h := if keepAspect then HeightForWidth(w, initW, initH) else initH;
      Rect(x, y, w, h)
    case Left =>
      var w := Max(initW - dx, MinImageSizeMm);
      var h := if keepAspect then HeightForWidth(w, initW, initH) else initH;
      Rect(x + initW - w, y, w, h)
    case Bottom =>
      var h := Max(initH + dy, MinImageSizeMm);
      var w := if keepAspect then WidthForHeight(h, initW, initH) else initW;
      Rect(x, y, w, h)
    case Top =>
      var h := Max(initH - dy, MinImageSizeMm);
      var w := if keepAspect then WidthForHeight(h, initW, initH) else initW;
      Rect(x, y + initH - h, w, h)
  }

  /** Under the aspect lock the frame keeps the proportions it had when the drag started. */
  lemma LockedResizeKeepsAspect(handle: ResizeHandle, init: Rect, dx: real, dy: real)
    requires init.width != 0.0 && init.height != 0.0
    ensures var r := ResizedFrame(handle, init, dx, dy, true);
            r.width * init.height == r.height * init.width
  {
    if DrivesHeight(handle) {
      LockedHeightDrag(handle, init, dx, dy);
    } else {
      LockedWidthDrag(handle, init, dx, dy);
    }
  }

  /** A locked drag of a corner or a left or right handle derives the height from the new width. */
  lemma LockedWidthDrag(handle: ResizeHandle, init: Rect, dx: real, dy: real)
    requires init.width != 0.0 && init.height != 0.0 && !DrivesHeight(handle)
    ensures var r := ResizedFrame(handle, init, dx, dy, true);
            r.height == HeightForWidth(r.width, init.width, init.height)
    ensures var r := ResizedFrame(handle, init, dx, dy, true);
            r.width * init.height == r.height * init.width
  {
    match handle {
      case BottomRight => case BottomLeft => case TopRight => case TopLeft =>
      case Right => case Left =>
    }
  }

  /** A locked drag of the top or bottom handle derives the width from the new height. */
  lemma LockedHeightDrag(handle: ResizeHandle, init: Rect, dx: real, dy: real)
    requires init.width != 0.0 && init.height != 0.0 && DrivesHeight(handle)
    ensures var r := ResizedFrame(handle, init, dx, dy, true);
            r.width == WidthForHeight(r.height, init.width, init.height)
    ensures var r := ResizedFrame(handle, init, dx, dy, true);
            r.width * init.height == r.height * init.width
  {
    match handle {
      case Bottom => case Top =>
    }
  }

  /** The dragged dimension follows the cursor but is never below 10 mm. */
  lemma ResizeFollowsCursorAboveMinimum(handle: ResizeHandle, init: Rect, dx: real, dy: real, keepAspect: bool)
    requires keepAspect ==> init.width != 0.0 && init.height != 0.0
    ensures var r := ResizedFrame(handle, init, dx, dy, keepAspect);
            && (!DrivesHeight(handle) ==>
                  r.width == Max((if MovesLeftEdge(handle) then init.width - dx else init.width + dx), MinImageSizeMm))
            && (DrivesHeight(handle) ==>
                  r.height == Max((if MovesTopEdge(handle) then init.height - dy else init.height + dy), MinImageSizeMm))
            && (!DrivesHeight(handle) ==> r.width >= MinImageSizeMm)
            && (DrivesHeight(handle) ==> r.height >= MinImageSizeMm)
  {
    match handle {
      case BottomRight => case BottomLeft => case TopRight => case TopLeft =>
      case Right => case Left => case Bottom => case Top =>
    }
  }

  /**
   * Without the aspect lock a side handle leaves the other dimension alone,
   * and a corner sets both dimensions from the cursor, each at least 10 mm.
   */
  lemma UnlockedResize(handle: ResizeHandle, init: Rect, dx: real, dy: real)
    ensures var r := ResizedFrame(handle, init, dx, dy, false);
            && ((handle.Left? || handle.Right?) ==> r.height == init.height)
            && (DrivesHeight(handle) ==> r.width == init.width)
            && (!DrivesHeight(handle) && !handle.Left? && !handle.Right? ==>
                  r.height == Max((if MovesTopEdge(handle) then init.height - dy else init.height + dy), MinImageSizeMm))
  {
    match handle {
      case BottomRight => case BottomLeft => case TopRight => case TopLeft =>
      case Right => case Left => case Bottom => case Top =>
    }
  }

  /** A drag that has not moved the cursor leaves an unlocked frame of at least 10 mm as it was. */
  lemma StillResizeKeepsFrame(handle: ResizeHandle, init: Rect)
    requires init.width >= MinImageSizeMm && init.height >= MinImageSizeMm
    ensures ResizedFrame(handle, init, 0.0, 0.0, false) == init
  {
  }

  /** Under the aspect lock a positive frame stays positive in both dimensions, whatever the drag. */
  lemma LockedResizeStaysPositive(handle: ResizeHandle, init: Rect, dx: real, dy: real)
    requires init.width > 0.0 && init.height > 0.0
    ensures ResizedFrame(handle, init, dx, dy, true).width > 0.0
    ensures ResizedFrame(handle, init, dx, dy, true).height > 0.0
  {
  }

  // ---------------------------------------------------------------------------
  // Image edits

  /** The edits the handlers make to one image. */
  datatype ImageEdit =
    | SetPosition(x: real, y: real)
    | SetSize(width: real, height: real)
    | SetFrame(frame: Rect)
    | RotateClockwise
    | RotateCounterClockwise
    | FlipHorizontally
    | FlipVertically
    | SetOpacity(opacity: real)
    | SetWidth(newWidth: real, keepAspect: bool)
    | SetHeight(newHeight: real, keepAspect: bool)

  /** The aspect-locked size edits divide by a pixel dimension, which must then be positive. */
  predicate Applicable(e: ImageEdit, img: PlacedImage) {
    match e
    case SetWidth(_, keep) => keep ==> img.originalWidthPx > 0
    case SetHeight(_, keep) => keep ==> img.originalHeightPx > 0
    case _ => true
  }

  /** `RotateImageCW`: a quarter turn clockwise, which swaps width and height. */
  function RotatedClockwise(img: PlacedImage): (r: PlacedImage)
    ensures r.widthMm == img.heightMm && r.heightMm == img.widthMm
    ensures r.rotationDegrees == FMod(img.rotationDegrees + 90.0, 360.0)
    ensures img.rotationDegrees >= -90.0 ==> 0.0 <= r.rotationDegrees < 360.0
    ensures r.(widthMm := img.widthMm, heightMm := img.heightMm, rotationDegrees := img.rotationDegrees) == img
  {
    img.(widthMm := img.heightMm, heightMm := img.widthMm,
         rotationDegrees := FMod(img.rotationDegrees + 90.0, 360.0))
  }

  /** `RotateImageCCW`: three quarter turns clockwise, which swaps width and height. */
  function RotatedCounterClockwise(img: PlacedImage): (r: PlacedImage)
    ensures r.widthMm == img.heightMm && r.heightMm == img.widthMm
    ensures r.rotationDegrees == FMod(img.rotationDegrees + 270.0, 360.0)
    ensures img.rotationDegrees >= -270.0 ==> 0.0 <= r.rotationDegrees < 360.0
    ensures r.(widthMm := img.widthMm, heightMm := img.heightMm, rotationDegrees := img.rotationDegrees) == img
  {
    img.(widthMm := img.heightMm, heightMm := img.widthMm,
         rotationDegrees := FMod(img.rotationDegrees + 270.0, 360.0))
  }

  /** For a rotation in [0, 360), clockwise then counter-clockwise, in either order, changes nothing. */
  lemma RotationsCancel(img: PlacedImage)
    requires 0.0 <= img.rotationDegrees < 360.0
    ensures RotatedCounterClockwise(RotatedClockwise(img)) == img
    ensures RotatedClockwise(RotatedCounterClockwise(img)) == img
  {
    var r := img.rotationDegrees;
    FModOfReducedSum(r + 90.0, 270.0, 360.0);
    FModOfReducedSum(r + 270.0, 90.0, 360.0);
    assert r + 90.0 + 270.0 == r + 360.0 == r + 270.0 + 90.0;
    FModOfOneTurnMore(r, 360.0);
  }

  /** Four clockwise quarter turns bring an image back to where it was. */
  lemma FourQuarterTurns(img: PlacedImage)
    requires 0.0 <= img.rotationDegrees < 360.0
    ensures RotatedClockwise(RotatedClockwise(RotatedClockwise(RotatedClockwise(img)))) == img
  {
    var r := img.rotationDegrees;
    FModOfReducedSum(r + 90.0, 90.0, 360.0);
    FModOfReducedSum(r + 180.0, 90.0, 360.0);
    FModOfReducedSum(r + 270.0, 90.0, 360.0);
    assert r + 90.0 + 90.0 == r + 180.0;
    assert r + 180.0 + 90.0 == r + 270.0;
    assert r + 270.0 + 90.0 == r + 360.0;
    FModOfOneTurnMore(r, 360.0);
  }

  /** `ImageOpacityChanged`: a percentage, as a fraction clamped to [0, 1]. */
  function OpacityFromPercent(percent: real): (r: real)
    ensures 0.0 <= r <= 1.0
    ensures 0.0 <= percent <= 100.0 ==> r * 100.0 == percent
    ensures percent < 0.0 ==> r == 0.0
    ensures percent > 100.0 ==> r == 1.0
  {
    Clamp(percent / 100.0, 0.0, 1.0)
  }

  /** `ImageWidthChanged`: the new width, and under the aspect lock the height that keeps the pixel proportions. */
  function WithWidth(img: PlacedImage, width: real, keepAspect: bool): (r: PlacedImage)
    requires keepAspect ==> img.originalWidthPx > 0
    ensures r.widthMm == width
    ensures keepAspect ==> r.heightMm * img.originalWidthPx as real == width * img.originalHeightPx as real
    ensures !keepAspect ==> r.heightMm == img.heightMm
    ensures r.(widthMm := img.widthMm, heightMm := img.heightMm) == img
  {
    var h := if keepAspect then width * (img.originalHeightPx as real / img.originalWidthPx as real) else img.heightMm;
    img.(widthMm := width, heightMm := h)
  }

  /** `ImageHeightChanged`: the new height, and under the aspect lock the width that keeps the pixel proportions. */
  function WithHeight(img: PlacedImage, height: real, keepAspect: bool): (r: PlacedImage)
    requires keepAspect ==> img.originalHeightPx > 0
    ensures r.heightMm == height
    ensures keepAspect ==> r.widthMm * img.originalHeightPx as real == height * img.originalWidthPx as real
    ensures !keepAspect ==> r.widthMm == img.widthMm
    ensures r.(widthMm := img.widthMm, heightMm := img.heightMm) == img
  {
    var w := if keepAspect then height * (img.originalWidthPx as real / img.originalHeightPx as real) else img.widthMm;
    img.(widthMm := w, heightMm := height)
  }

  /** One edit applied to one image; identity, path, stacking and pixel size never change. */
  function Apply(img: PlacedImage, e: ImageEdit): (r: PlacedImage)
    requires Applicable(e, img)
    ensures r.id == img.id && r.path == img.path && r.zIndex == img.zIndex
    ensures r.originalWidthPx == img.originalWidthPx && r.originalHeightPx == img.originalHeightPx
  {
    match e
    case SetPosition(x, y) => img.(xMm := x, yMm := y)
    case SetSize(w, h) => img.(widthMm := w, heightMm := h)
    case SetFrame(f) => img.(xMm := f.x, yMm := f.y, widthMm := f.width, heightMm := f.height)
    case RotateClockwise => RotatedClockwise(img)
    case RotateCounterClockwise => RotatedCounterClockwise(img)
    case FlipHorizontally => img.(flipHorizontal := !img.flipHorizontal)
    case FlipVertically => img.(flipVertical := !img.flipVertical)
    case SetOpacity(o) => img.(opacity := o)
    case SetWidth(w, keep) => WithWidth(img, w, keep)
    case SetHeight(h, keep) => WithHeight(img, h, keep)
  }

  /** Every image has a positive pixel size (what a decoded image has). */
  predicate PixelSized(images: seq<PlacedImage>) {
    forall i :: 0 <= i < |images| ==> images[i].originalWidthPx > 0 && images[i].originalHeightPx > 0
  }

  /**
   * `get_image_mut(id)` followed by an edit: the first image with the id is
   * edited and every other image is left exactly as it was; an absent id
   * changes nothing.
   */
  function EditImage(images: seq<PlacedImage>, id: string, e: ImageEdit): (r: seq<PlacedImage>)
    requires FirstIndexOf(images, id).Some? ==> Applicable(e, images[FirstIndexOf(images, id).value])
    ensures |r| == |images|
    ensures FirstIndexOf(images, id).None? ==> r == images
    ensures FirstIndexOf(images, id).Some? ==>
              var k := FirstIndexOf(images, id).value;
              r[k] == Apply(images[k], e) && forall j :: 0 <= j < |r| && j != k ==> r[j] == images[j]
  {
    match FirstIndexOf(images, id)
    case None => images
    case Some(k) => images[k := Apply(images[k], e)]
  }

  /** An edit keeps every image's id and z-index, so the stacking invariant, and the pixel sizes. */
  lemma EditKeepsInvariants(images: seq<PlacedImage>, id: string, e: ImageEdit)
    requires FirstIndexOf(images, id).Some? ==> Applicable(e, images[FirstIndexOf(images, id).value])
    ensures var r := EditImage(images, id, e);
            && (forall j :: 0 <= j < |r| ==> r[j].id == images[j].id && r[j].zIndex == images[j].zIndex)
            && (ZIndexed(images) ==> ZIndexed(r))
            && (PixelSized(images) ==> PixelSized(r))
  {
  }

  /** Editing an image keeps the same image selected. */
  lemma EditKeepsSelection(images: seq<PlacedImage>, id: string, e: ImageEdit, selected: Option<string>)
    requires FirstIndexOf(images, id).Some? ==> Applicable(e, images[FirstIndexOf(images, id).value])
    ensures SelectedIndex(EditImage(images, id, e), selected) == SelectedIndex(images, selected)
  {
    if selected.Some? {
      EditKeepsInvariants(images, id, e);
      SameIdsSameIndex(images, EditImage(images, id, e), selected.value);
    }
  }

  lemma {:induction false} SameIdsSameIndex(a: seq<PlacedImage>, b: seq<PlacedImage>, id: string)
    requires |a| == |b| && forall j :: 0 <= j < |a| ==> a[j].id == b[j].id
    ensures FirstIndexOf(a, id) == FirstIndexOf(b, id)
    decreases |a|
  {
    if |a| > 0 && a[0].id != id {
      SameIdsSameIndex(a[1..], b[1..], id);
    }
  }

  /** Removing an image keeps every remaining image's pixel size. */
  lemma RemovalKeepsPixelSizes(images: seq<PlacedImage>, id: string)
    requires PixelSized(images)
    ensures PixelSized(ImagesAfterRemoval(images, id))
  {
    match FirstIndexOf(images, id)
    case None =>
    case Some(k) =>
      var s := images[..k] + images[k + 1..];
      assert forall i :: 0 <= i < |s| ==> s[i] == images[if i < k then i else i + 1];
  }

  /** The edit one step of a drag makes, given the cursor's offset (dx, dy) from where the drag started. */
  function DragEdit(mode: DragMode, initialPos: (real, real), initialSize: (real, real), dx: real, dy: real, keepAspect: bool): (r: ImageEdit)
    requires !mode.NoDrag?
    requires mode.Resize? && keepAspect ==> initialSize.0 != 0.0 && initialSize.1 != 0.0
    ensures mode.Move? ==> r == SetPosition(initialPos.0 + dx, initialPos.1 + dy)
    ensures mode.Resize? ==> r.SetFrame?
    ensures mode.Resize? ==>
              r.frame == ResizedFrame(mode.handle, Rect(initialPos.0, initialPos.1, initialSize.0, initialSize.1), dx, dy, keepAspect)
  {
    match mode
    case Move => SetPosition(initialPos.0 + dx, initialPos.1 + dy)
    case Resize(handle) =>
      SetFrame(ResizedFrame(handle, Rect(initialPos.0, initialPos.1, initialSize.0, initialSize.1), dx, dy, keepAspect))
  }

  // ---------------------------------------------------------------------------
  // Page edits

  /** A margin is accepted when it is not negative and below half the page extent it eats into. */
  predicate MarginFits(margin: real, extent: real) {
    0.0 <= margin < extent / 2.0
  }

  /** Margins that each pass the check leave a printable area of positive size. */
  lemma AcceptedMarginsLeavePrintableArea(p: Page)
    requires MarginFits(p.marginTopMm, p.heightMm) && MarginFits(p.marginBottomMm, p.heightMm)
    requires MarginFits(p.marginLeftMm, p.widthMm) && MarginFits(p.marginRightMm, p.widthMm)
    ensures PrintableArea(p).width > 0.0 && PrintableArea(p).height > 0.0
  {
    PrintableAreaPositiveIff(p);
  }

  /** `OrientationToggled`: width and height swapped and the orientation flipped. */
  function Toggled(p: Page): (r: Page)
    ensures r.widthMm == p.heightMm && r.heightMm == p.widthMm
    ensures r.orientation != p.orientation
    ensures r.(widthMm := p.widthMm, heightMm := p.heightMm, orientation := p.orientation) == p
  {
    p.(widthMm := p.heightMm, heightMm := p.widthMm,
       orientation := if p.orientation == Portrait then Landscape else Portrait)
  }

  /** Toggling the orientation twice gives the original page. */
  lemma ToggleTwice(p: Page)
    ensures Toggled(Toggled(p)) == p
  {
  }

  /** `BorderlessToggled`: on sets every margin to 0, off sets every margin to 25.4. */
  function WithBorderless(p: Page, enabled: bool): (r: Page)
    ensures r.borderless == enabled
    ensures var m := if enabled then 0.0 else DefaultMarginMm;
            r.marginTopMm == m && r.marginBottomMm == m && r.marginLeftMm == m && r.marginRightMm == m
    ensures r.(borderless := p.borderless, marginTopMm := p.marginTopMm, marginBottomMm := p.marginBottomMm,
               marginLeftMm := p.marginLeftMm, marginRightMm := p.marginRightMm) == p
  {
    var m := if enabled then 0.0 else DefaultMarginMm;
    p.(borderless := enabled, marginTopMm := m, marginBottomMm := m, marginLeftMm := m, marginRightMm := m)
  }

  /** Switching borderless on and off again does not bring back custom margins: they become 25.4. */
  lemma BorderlessOffForgetsMargins(p: Page)
    ensures WithBorderless(WithBorderless(p, true), false) == WithBorderless(p, false)
    ensures p.marginTopMm != DefaultMarginMm ==> WithBorderless(WithBorderless(p, true), false).marginTopMm != p.marginTopMm
  {
  }

  /** `PaperSizeSelected`: the paper's dimensions and size; margins and orientation stay. */
  function WithPaperSize(p: Page, size: PaperSize): (r: Page)
    ensures (r.widthMm, r.heightMm) == ToDimensions(size) && r.paperSize == size
    ensures r.(widthMm := p.widthMm, heightMm := p.heightMm, paperSize := p.paperSize) == p
  {
    var (w, h) := ToDimensions(size);
    p.(widthMm := w, heightMm := h, paperSize := size)
  }

  /**
   * The start-up page: a new A4 page with the remembered paper size, type,
   * quality, colour mode, orientation, borderless flag and margins. Only the
   * paper size field is set; the dimensions stay those of A4.
   */
  function WithLastPrintSettings(p: Page, s: LastPrintSettings): (r: Page)
    ensures r.widthMm == p.widthMm && r.heightMm == p.heightMm
    ensures r.paperSize == s.paperSize.GetOr(p.paperSize) && r.paperType == s.paperType.GetOr(p.paperType)
    ensures r.printQuality == s.printQuality.GetOr(p.printQuality) && r.colorMode == s.colorMode.GetOr(p.colorMode)
    ensures r.orientation == s.orientation.GetOr(p.orientation) && r.borderless == s.borderless.GetOr(p.borderless)
    ensures s.margins.None? ==>
              (r.marginTopMm, r.marginBottomMm, r.marginLeftMm, r.marginRightMm)
              == (p.marginTopMm, p.marginBottomMm, p.marginLeftMm, p.marginRightMm)
    ensures s.margins.Some? ==> (r.marginTopMm, r.marginBottomMm, r.marginLeftMm, r.marginRightMm) == s.margins.value
  {
    var (top, bottom, left, right) := s.margins.GetOr((p.marginTopMm, p.marginBottomMm, p.marginLeftMm, p.marginRightMm));
    p.(paperSize := s.paperSize.GetOr(p.paperSize), paperType := s.paperType.GetOr(p.paperType),
       printQuality := s.printQuality.GetOr(p.printQuality), colorMode := s.colorMode.GetOr(p.colorMode),
       orientation := s.orientation.GetOr(p.orientation), borderless := s.borderless.GetOr(p.borderless),
       marginTopMm := top, marginBottomMm := bottom, marginLeftMm := left, marginRightMm := right)
  }

  // ---------------------------------------------------------------------------
  // Zoom, copies, printers

  /** `ZoomIn`: 20 % larger, at most 5. */
  function ZoomedIn(zoom: real): (r: real)
    ensures r <= MaxZoom
    ensures zoom * 1.2 <= MaxZoom ==> r == zoom * 1.2
    ensures zoom * 1.2 > MaxZoom ==> r == MaxZoom
  {
    Min(zoom * 1.2, MaxZoom)
  }

  /** `ZoomOut`: 20 % smaller, at least 0.1. */
  function ZoomedOut(zoom: real): (r: real)
    ensures r >= MinZoom
    ensures zoom / 1.2 >= MinZoom ==> r == zoom / 1.2
    ensures zoom / 1.2 < MinZoom ==> r == MinZoom
  {
    Max(zoom / 1.2, MinZoom)
  }

  /** Zooming keeps a zoom in [0.1, 5] inside that range. */
  lemma ZoomStaysInRange(zoom: real)
    requires MinZoom <= zoom <= MaxZoom
    ensures MinZoom <= ZoomedIn(zoom) <= MaxZoom
    ensures MinZoom <= ZoomedOut(zoom) <= MaxZoom
  {
  }

  /** Away from the upper limit, zooming out undoes zooming in. */
  lemma ZoomOutUndoesZoomIn(zoom: real)
    requires MinZoom <= zoom && zoom * 1.2 <= MaxZoom
    ensures ZoomedOut(ZoomedIn(zoom)) == zoom
  {
    assert (zoom * 1.2) / 1.2 == zoom;
  }

  /** The largest number of copies the copies field accepts. */
  const MaxCopies: nat := 99

  /** `CopiesChanged`: the text as a `u32`, when it is between 1 and 99. */
  function AcceptedCopies(value: string): (r: Option<nat>)
    ensures r.Some? ==> 1 <= r.value <= MaxCopies && ParseU32(value) == Some(r.value)
    ensures r.None? <==> ParseU32(value).None? || ParseU32(value).value < 1 || ParseU32(value).value > MaxCopies
  {
    match ParseU32(value)
    case Some(n) => if 1 <= n <= MaxCopies then Some(n) else None
    case None => None
  }

  /** Every count from 1 to 99, written out in decimal, is accepted as itself. */
  lemma CopiesRoundTrip(n: nat)
    requires 1 <= n <= MaxCopies
    ensures AcceptedCopies(NatToString(n)) == Some(n)
  {
    ParseU32OfNatToString(n);
  }

  /** Zero and a hundred copies are refused, and so is an empty field. */
  lemma CopiesOutOfRangeRefused()
    ensures AcceptedCopies("0").None? && AcceptedCopies("100").None? && AcceptedCopies("").None?
  {
    ParseU32OfNatToString(0);
    ParseU32OfNatToString(100);
    assert NatToString(0) == "0";
    assert NatToString(100) == "100";
  }

  /** `PrintersDiscovered`: the first default printer, else the first printer, else the current choice. */
  function ChosenPrinter(printers: seq<Printing.PrinterInfo>, current: Option<string>): (r: Option<string>)
    ensures Printing.FirstDefaultPrinter(printers).Some? ==> r == Some(Printing.FirstDefaultPrinter(printers).value.name)
    ensures Printing.FirstDefaultPrinter(printers).None? && |printers| > 0 ==> r == Some(printers[0].name)
    ensures |printers| == 0 ==> r == current
    ensures |printers| > 0 ==> exists p :: p in printers && r == Some(p.name)
  {
    match Printing.FirstDefaultPrinter(printers)
    case Some(p) => Some(p.name)
    case None => if |printers| > 0 then Some(printers[0].name) else current
  }

  /** The first printer marked default is chosen, whatever follows it. */
  lemma DefaultPrinterChosen(printers: seq<Printing.PrinterInfo>, k: nat, current: Option<string>)
    requires k < |printers| && printers[k].isDefault
    requires forall j :: 0 <= j < k ==> !printers[j].isDefault
    ensures ChosenPrinter(printers, current) == Some(printers[k].name)
  {
    var d := Printing.FirstDefaultPrinter(printers);
    assert d.Some? by {
      assert printers[k] in printers;
    }
    var j :| 0 <= j < |printers| && printers[j] == d.value && d.value.isDefault
             && forall i :: 0 <= i < j ==> !printers[i].isDefault;
  }

  // ---------------------------------------------------------------------------
  // Title

  /** The path components that name something: no empty segments and no ".". */
  function Components(segments: seq<string>): (r: seq<string>)
    ensures forall c :: c in r ==> c in segments && c != "" && c != "."
  {
    if |segments| == 0 then []
    else
      var last := segments[|segments| - 1];
      Components(segments[..|segments| - 1]) + (if last == "" || last == "." then [] else [last])
  }

  /** `Path::file_name`: the last component, unless there is none or it is "..". */
  function FileName(path: string): (r: Option<string>)
    ensures r.Some? ==> r.value != "" && r.value != "." && r.value != ".." && '/' !in r.value
  {
    var segments := Split(path, '/');
    var parts := Components(segments);
    if |parts| == 0 || parts[|parts| - 1] == ".." then None
    else
      var last := parts[|parts| - 1];
      assert last in segments;
      Some(last)
  }

  /** The file name of "directory/name" is the name. */
  lemma FileNameOfPath(directory: string, name: string)
    requires name != "" && name != "." && name != ".." && '/' !in name
    ensures FileName(directory + "/" + name) == Some(name)
  {
    var segments := Split(directory + "/" + name, '/');
    SplitLastPiece(directory, '/', name);
    assert directory + "/" + name == directory + ['/'] + name;
  }

  /** The window title: the file name after "Print Layout - ", and a '*' when there are unsaved changes. */
  function Title(currentFile: Option<string>, isModified: bool): (r: string)
    ensures StartsWith(r, "Print Layout")
    ensures currentFile.None? ==> (r == "Print Layout*" <==> isModified) && (r == "Print Layout" <==> !isModified)
    ensures currentFile.Some? ==>
              r == "Print Layout - " + FileName(currentFile.value).GetOr("Unnamed") + (if isModified then "*" else "")
  {
    var base := match currentFile
      case Some(path) => "Print Layout - " + FileName(path).GetOr("Unnamed")
      case None => "Print Layout";
    assert base[..12] == "Print Layout";
    var r := if isModified then base + "*" else base;
    assert r[..12] == base[..12];
    r
  }

  /** A saved file with unsaved edits shows its bare name and a star. */
  lemma TitleOfModifiedFile(directory: string, name: string)
    requires name != "" && name != "." && name != ".." && '/' !in name
    ensures Title(Some(directory + "/" + name), true) == "Print Layout - " + name + "*"
  {
    FileNameOfPath(directory, name);
  }

  // ---------------------------------------------------------------------------
  // The application

  /** What `image::open` made of one chosen file: its pixel size (with a fresh id), or a failure. */
  datatype ChosenFile = Decoded(id: string, path: string, widthPx: nat, heightPx: nat) | Undecodable(failedPath: string)

  /** The images a list of chosen files adds, in order, before renumbering. */
  function PlacedImages(files: seq<ChosenFile>): (r: seq<PlacedImage>)
    requires forall i :: 0 <= i < |files| && files[i].Decoded? ==> files[i].widthPx > 0 && files[i].heightPx > 0
    ensures PixelSized(r)
    ensures |r| <= |files|
  {
    if |files| == 0 then []
    else
      var last := files[|files| - 1];
      var rest := PlacedImages(files[..|files| - 1]);
      match last
      case Decoded(id, path, w, h) => rest + [NewPlacedImage(id, path, w, h)]
      case Undecodable(_) => rest
  }

  /** The images of two lists of chosen files are those of the first, then those of the second. */
  lemma {:induction false} PlacedImagesAppend(a: seq<ChosenFile>, b: seq<ChosenFile>)
    requires forall i :: 0 <= i < |a| && a[i].Decoded? ==> a[i].widthPx > 0 && a[i].heightPx > 0
    requires forall i :: 0 <= i < |b| && b[i].Decoded? ==> b[i].widthPx > 0 && b[i].heightPx > 0
    ensures forall i :: 0 <= i < |a + b| && (a + b)[i].Decoded? ==> (a + b)[i].widthPx > 0 && (a + b)[i].heightPx > 0
    ensures PlacedImages(a + b) == PlacedImages(a) + PlacedImages(b)
    decreases |b|
  {
    if |b| == 0 {
      assert a + b == a;
    } else {
      var init := b[..|b| - 1];
      assert (a + b)[..|a + b| - 1] == a + init;
      assert (a + b)[|a + b| - 1] == b[|b| - 1];
      PlacedImagesAppend(a, init);
    }
  }

  /** A decoded file gives exactly one image, with its id, path and pixel size; an undecodable one gives none. */
  lemma PlacedImagesOfOne(f: ChosenFile)
    requires f.Decoded? ==> f.widthPx > 0 && f.heightPx > 0
    ensures PlacedImages([f]) == if f.Decoded? then [NewPlacedImage(f.id, f.path, f.widthPx, f.heightPx)] else []
  {
    assert [f][..0] == [];
  }

  /** `PrintLayout`: the layout being edited, its canvas and the editor's state. */
  class PrintLayout {
    const layout: Layout
    const canvas: LayoutCanvas
    var zoom: real
    var dragMode: DragMode
    var dragStartPos: (real, real)
    var dragImageInitialPos: (real, real)
    var dragImageInitialSize: (real, real)
    var printers: seq<Printing.PrinterInfo>
    var selectedPrinter: Option<string>
    var printCopies: nat
    var printDpi: nat
    var printStatus: PrintStatus
    var maintainAspectRatio: bool
    var preferences: UserPreferences
    var currentFile: Option<string>
    var isModified: bool

    ghost predicate Valid()
      reads this, layout, canvas
    {
      layout.Valid() && canvas.Valid() && PixelSized(layout.images)
    }

    /**
     * `PrintLayout::new` with the loaded preferences: a new layout carrying
     * the last print settings, the remembered zoom and printer, and the
     * remembered number of copies or one.
     */
    constructor (preferences: UserPreferences)
      ensures Valid()
      ensures layout.page == WithLastPrintSettings(NewPage(A4), preferences.lastPrintSettings)
      ensures layout.images == [] && layout.selectedImageId.None?
      ensures canvas.layout == layout.Data() && canvas.zoom == 1.0
      ensures zoom == preferences.zoomLevel
      ensures dragMode == NoDrag && dragStartPos == (0.0, 0.0)
      ensures dragImageInitialPos == (0.0, 0.0) && dragImageInitialSize == (0.0, 0.0)
      ensures printers == [] && printStatus == NotPrinting
      ensures selectedPrinter == preferences.lastPrintSettings.printerName.Or(preferences.lastPrinter)
      ensures printCopies == preferences.lastPrintSettings.copies.GetOr(1) && printDpi == 300
      ensures maintainAspectRatio && !isModified && currentFile.None?
      ensures this.preferences == preferences
    {
      var l := new Layout();
      l.page := WithLastPrintSettings(l.page, preferences.lastPrintSettings);
      layout := l;
      canvas := new LayoutCanvas(l.Data());
      zoom := preferences.zoomLevel;
      dragMode := NoDrag;
      dragStartPos := (0.0, 0.0);
      dragImageInitialPos := (0.0, 0.0);
      dragImageInitialSize := (0.0, 0.0);
      printers := [];
      selectedPrinter := preferences.lastPrintSettings.printerName.Or(preferences.lastPrinter);
      printCopies := preferences.lastPrintSettings.copies.GetOr(1);
      printDpi := 300;
      printStatus := NotPrinting;
      maintainAspectRatio := true;
      this.preferences := preferences;
      currentFile := None;
      isModified := false;
    }

    /** `CanvasMessage::SelectImage`: select the id; if the image exists, start a move from its current frame. */
    method OnSelectImage(id: string)
      requires Valid()
      modifies layout`selectedImageId, canvas`layout
      modifies this`dragMode, this`dragImageInitialPos, this`dragImageInitialSize, this`dragStartPos
      ensures Valid()
      ensures layout.selectedImageId == Some(id)
      ensures canvas.layout == layout.Data()
      ensures GetImage(layout.images, id).None? ==>
                dragMode == old(dragMode) && dragImageInitialPos == old(dragImageInitialPos)
                && dragImageInitialSize == old(dragImageInitialSize) && dragStartPos == old(dragStartPos)
      ensures GetImage(layout.images, id).Some? ==>
                var img := GetImage(layout.images, id).value;
                dragMode == Move && dragImageInitialPos == (img.xMm, img.yMm)
                && dragImageInitialSize == (img.widthMm, img.heightMm) && dragStartPos == (0.0, 0.0)
    {
      layout.selectedImageId := Some(id);
      var found := GetImage(layout.images, id);
      if found.Some? {
        var img := found.value;
        dragMode := Move;
        dragImageInitialPos := (img.xMm, img.yMm);
        dragImageInitialSize := (img.widthMm, img.heightMm);
        dragStartPos := (0.0, 0.0);
      }
      canvas.SetLayout(layout.Data());
    }

    /** `CanvasMessage::StartResize`: select the id; if the image exists, start a resize on that handle. */
    method OnStartResize(id: string, handle: ResizeHandle)
      requires Valid()
      modifies layout`selectedImageId, canvas`layout
      modifies this`dragMode, this`dragImageInitialPos, this`dragImageInitialSize, this`dragStartPos
      ensures Valid()
      ensures layout.selectedImageId == Some(id)
      ensures canvas.layout == layout.Data()
      ensures GetImage(layout.images, id).None? ==>
                dragMode == old(dragMode) && dragImageInitialPos == old(dragImageInitialPos)
                && dragImageInitialSize == old(dragImageInitialSize) && dragStartPos == old(dragStartPos)
      ensures GetImage(layout.images, id).Some? ==>
                var img := GetImage(layout.images, id).value;
                dragMode == Resize(handle) && dragImageInitialPos == (img.xMm, img.yMm)
                && dragImageInitialSize == (img.widthMm, img.heightMm) && dragStartPos == (0.0, 0.0)
    {
      layout.selectedImageId := Some(id);
      var found := GetImage(layout.images, id);
      if found.Some? {
        var img := found.value;
        dragMode := Resize(handle);
        dragImageInitialPos := (img.xMm, img.yMm);
        dragImageInitialSize := (img.widthMm, img.heightMm);
        dragStartPos := (0.0, 0.0);
      }
      canvas.SetLayout(layout.Data());
    }

    /** `CanvasMessage::DeselectAll`: no selection and no drag. */
    method OnDeselectAll()
      requires Valid()
      modifies layout`selectedImageId, canvas`layout, this`dragMode
      ensures Valid()
      ensures layout.selectedImageId.None? && dragMode == NoDrag
      ensures canvas.layout == layout.Data()
    {
      layout.selectedImageId := None;
      dragMode := NoDrag;
      canvas.SetLayout(layout.Data());
    }

    /**
     * `CanvasMessage::MouseMoved` at (x, y) millimetres. While a drag is on and
     * an image is selected, the first move latches the drag start, and the
     * selected image gets the position (move) or frame (resize) that the
     * cursor's offset from the drag start gives; nothing else changes.
     */
    method OnMouseMoved(x: real, y: real)
      requires Valid()
      requires dragMode.Resize? && maintainAspectRatio ==> dragImageInitialSize.0 != 0.0 && dragImageInitialSize.1 != 0.0
      modifies this`dragStartPos, layout`images
      ensures Valid()
      ensures dragMode.NoDrag? || layout.selectedImageId.None? ==>
                dragStartPos == old(dragStartPos) && layout.images == old(layout.images)
      ensures !dragMode.NoDrag? && layout.selectedImageId.Some? ==>
                && dragStartPos == (if old(dragStartPos) == (0.0, 0.0) then (x, y) else old(dragStartPos))
                && layout.images == EditImage(old(layout.images), layout.selectedImageId.value,
                                              DragEdit(dragMode, dragImageInitialPos, dragImageInitialSize,
                                                       x - dragStartPos.0, y - dragStartPos.1, maintainAspectRatio))
    {
      if dragMode.NoDrag? || layout.selectedImageId.None? {
        return;
      }
      var id := layout.selectedImageId.value;
      if dragStartPos == (0.0, 0.0) {
        dragStartPos := (x, y);
      }
      var edit := DragEdit(dragMode, dragImageInitialPos, dragImageInitialSize,
                           x - dragStartPos.0, y - dragStartPos.1, maintainAspectRatio);
      EditKeepsInvariants(layout.images, id, edit);
      layout.images := EditImage(layout.images, id, edit);
    }

    /** `CanvasMessage::MouseReleased`: ends an active drag and marks the layout modified; otherwise nothing. */
    method OnMouseReleased()
      modifies this`dragMode, this`dragStartPos, this`isModified
      ensures old(dragMode).NoDrag? ==>
                dragMode == NoDrag && dragStartPos == old(dragStartPos) && isModified == old(isModified)
      ensures !old(dragMode).NoDrag? ==> dragMode == NoDrag && dragStartPos == (0.0, 0.0) && isModified
    {
      if !dragMode.NoDrag? {
        dragMode := NoDrag;
        dragStartPos := (0.0, 0.0);
        isModified := true;
      }
    }

    /** `CanvasMessage::ImageMoved`: the image with the id, if any, moves to (x, y). */
    method OnImageMoved(id: string, x: real, y: real)
      requires Valid()
      modifies layout`images, canvas`layout
      ensures Valid()
      ensures layout.images == EditImage(old(layout.images), id, SetPosition(x, y))
      ensures canvas.layout == if GetImage(old(layout.images), id).Some? then layout.Data() else old(canvas.layout)
    {
      if GetImage(layout.images, id).Some? {
        EditKeepsInvariants(layout.images, id, SetPosition(x, y));
        layout.images := EditImage(layout.images, id, SetPosition(x, y));
        canvas.SetLayout(layout.Data());
      }
    }

    /** `CanvasMessage::ImageResized`: the image with the id, if any, gets the new size. */
    method OnImageResized(id: string, width: real, height: real)
      requires Valid()
      modifies layout`images, canvas`layout
      ensures Valid()
      ensures layout.images == EditImage(old(layout.images), id, SetSize(width, height))
      ensures canvas.layout == if GetImage(old(layout.images), id).Some? then layout.Data() else old(canvas.layout)
    {
      if GetImage(layout.images, id).Some? {
        EditKeepsInvariants(layout.images, id, SetSize(width, height));
        layout.images := EditImage(layout.images, id, SetSize(width, height));
        canvas.SetLayout(layout.Data());
      }
    }

    /**
     * `ImageFilesSelected`: every decoded file becomes a new image on top of
     * the stack, in the order chosen; files that did not decode are skipped.
     */
    method OnImageFilesSelected(files: seq<ChosenFile>)
      requires Valid()
      requires forall i :: 0 <= i < |files| && files[i].Decoded? ==> files[i].widthPx > 0 && files[i].heightPx > 0
      modifies layout`images, canvas`layout, this`isModified
      ensures Valid()
      ensures layout.images == Reindexed(old(layout.images) + PlacedImages(files))
      ensures canvas.layout == layout.Data() && isModified
    {
      var i := 0;
      while i < |files|
        invariant 0 <= i <= |files|
        invariant layout.Valid() && PixelSized(layout.images)
        invariant layout.images == Reindexed(old(layout.images) + PlacedImages(files[..i]))
      {
        assert files[..i + 1][..i] == files[..i];
        match files[i] {
          case Decoded(id, path, w, h) =>
          ghost var before := layout.images;
          layout.AddImage(NewPlacedImage(id, path, w, h));
          ReindexedSnoc(old(layout.images) + PlacedImages(files[..i]), NewPlacedImage(id, path, w, h));
          assert old(layout.images) + PlacedImages(files[..i + 1])
                 == old(layout.images) + PlacedImages(files[..i]) + [NewPlacedImage(id, path, w, h)];
          case Undecodable(_) =>
        }
        i := i + 1;
      }
      assert files[..|files|] == files;
      canvas.SetLayout(layout.Data());
      isModified := true;
    }

    /** `DeleteImageClicked`: removes the selected image, if there is a selection. */
    method OnDeleteImageClicked()
      requires Valid()
      modifies layout`images, layout`selectedImageId, canvas`layout, this`isModified
      ensures Valid()
      ensures old(layout.selectedImageId).None? ==>
                layout.images == old(layout.images) && layout.selectedImageId.None?
                && canvas.layout == old(canvas.layout) && isModified == old(isModified)
      ensures old(layout.selectedImageId).Some? ==>
                var id := old(layout.selectedImageId).value;
                && layout.images == ImagesAfterRemoval(old(layout.images), id)
                && layout.selectedImageId == (if FirstIndexOf(old(layout.images), id).Some? then None else Some(id))
                && canvas.layout == layout.Data() && isModified
    {
      if layout.selectedImageId.Some? {
        var id := layout.selectedImageId.value;
        RemovalKeepsPixelSizes(layout.images, id);
        var _ := layout.RemoveImage(id);
        canvas.SetLayout(layout.Data());
        isModified := true;
      }
    }

    /** `PaperSizeSelected`: the paper's size and dimensions. */
    method OnPaperSizeSelected(size: PaperSize)
      requires Valid()
      modifies layout`page, canvas`layout, this`isModified
      ensures Valid()
      ensures layout.page == WithPaperSize(old(layout.page), size)
      ensures canvas.layout == layout.Data() && isModified
    {
      layout.page := WithPaperSize(layout.page, size);
      canvas.SetLayout(layout.Data());
      isModified := true;
    }

    /** `PaperTypeSelected`. */
    method OnPaperTypeSelected(paperType: PaperType)
      requires Valid()
      modifies layout`page, this`isModified
      ensures Valid()
      ensures layout.page == old(layout.page).(paperType := paperType) && isModified
    {
      layout.page := layout.page.(paperType := paperType);
      isModified := true;
    }

    /** `PrintQualitySelected`. */
    method OnPrintQualitySelected(quality: PrintQuality)
      requires Valid()
      modifies layout`page, this`isModified
      ensures Valid()
      ensures layout.page == old(layout.page).(printQuality := quality) && isModified
    {
      layout.page := layout.page.(printQuality := quality);
      isModified := true;
    }

    /** `ColorModeSelected`. */
    method OnColorModeSelected(mode: ColorMode)
      requires Valid()
      modifies layout`page, this`isModified
      ensures Valid()
      ensures layout.page == old(layout.page).(colorMode := mode) && isModified
    {
      layout.page := layout.page.(colorMode := mode);
      isModified := true;
    }

    /** `MarginTopChanged` with the parsed value: accepted when 0 <= m < height / 2, otherwise ignored. */
    method OnMarginTopChanged(parsed: Option<real>)
      requires Valid()
      modifies layout`page, canvas`layout
      ensures Valid()
      ensures var accepted := parsed.Some? && MarginFits(parsed.value, old(layout.page).heightMm);
              && layout.page == (if accepted then old(layout.page).(marginTopMm := parsed.value) else old(layout.page))
              && canvas.layout == (if accepted then layout.Data() else old(canvas.layout))
    {
      if parsed.Some? && MarginFits(parsed.value, layout.page.heightMm) {
        layout.page := layout.page.(marginTopMm := parsed.value);
        canvas.SetLayout(layout.Data());
      }
    }

    /** `MarginBottomChanged` with the parsed value: accepted when 0 <= m < height / 2, otherwise ignored. */
    method OnMarginBottomChanged(parsed: Option<real>)
      requires Valid()
      modifies layout`page, canvas`layout
      ensures Valid()
      ensures var accepted := parsed.Some? && MarginFits(parsed.value, old(layout.page).heightMm);
              && layout.page == (if accepted then old(layout.page).(marginBottomMm := parsed.value) else old(layout.page))
              && canvas.layout == (if accepted then layout.Data() else old(canvas.layout))
    {
      if parsed.Some? && MarginFits(parsed.value, layout.page.heightMm) {
        layout.page := layout.page.(marginBottomMm := parsed.value);
        canvas.SetLayout(layout.Data());
      }
    }

    /** `MarginLeftChanged` with the parsed value: accepted when 0 <= m < width / 2, otherwise ignored. */
    method OnMarginLeftChanged(parsed: Option<real>)
      requires Valid()
      modifies layout`page, canvas`layout
      ensures Valid()
      ensures var accepted := parsed.Some? && MarginFits(parsed.value, old(layout.page).widthMm);
              && layout.page == (if accepted then old(layout.page).(marginLeftMm := parsed.value) else old(layout.page))
              && canvas.layout == (if accepted then layout.Data() else old(canvas.layout))
    {
      if parsed.Some? && MarginFits(parsed.value, layout.page.widthMm) {
        layout.page := layout.page.(marginLeftMm := parsed.value);
        canvas.SetLayout(layout.Data());
      }
    }

    /** `MarginRightChanged` with the parsed value: accepted when 0 <= m < width / 2, otherwise ignored. */
    method OnMarginRightChanged(parsed: Option<real>)
      requires Valid()
      modifies layout`page, canvas`layout
      ensures Valid()
      ensures var accepted := parsed.Some? && MarginFits(parsed.value, old(layout.page).widthMm);
              && layout.page == (if accepted then old(layout.page).(marginRightMm := parsed.value) else old(layout.page))
              && canvas.layout == (if accepted then layout.Data() else old(canvas.layout))
    {
      if parsed.Some? && MarginFits(parsed.value, layout.page.widthMm) {
        layout.page := layout.page.(marginRightMm := parsed.value);
        canvas.SetLayout(layout.Data());
      }
    }

    /** `ZoomIn`; the canvas gets the same zoom. */
    method OnZoomIn()
      requires Valid()
      modifies this`zoom, canvas`zoom
      ensures Valid()
      ensures zoom == ZoomedIn(old(zoom)) && canvas.zoom == Clamp(zoom, MinZoom, MaxZoom)
    {
      zoom := ZoomedIn(zoom);
      canvas.SetZoom(zoom);
    }

    /** `ZoomOut`; the canvas gets the same zoom. */
    method OnZoomOut()
      requires Valid()
      modifies this`zoom, canvas`zoom
      ensures Valid()
      ensures zoom == ZoomedOut(old(zoom)) && canvas.zoom == Clamp(zoom, MinZoom, MaxZoom)
    {
      zoom := ZoomedOut(zoom);
      canvas.SetZoom(zoom);
    }

    /** `ZoomReset`: zoom 1. */
    method OnZoomReset()
      requires Valid()
      modifies this`zoom, canvas`zoom
      ensures Valid()
      ensures zoom == 1.0 && canvas.zoom == 1.0
    {
      zoom := 1.0;
      canvas.SetZoom(zoom);
    }

    /** `ZoomToFit`: a fixed zoom of one half. */
    method OnZoomToFit()
      requires Valid()
      modifies this`zoom, canvas`zoom
      ensures Valid()
      ensures zoom == 0.5 && canvas.zoom == 0.5
    {
      zoom := 0.5;
      canvas.SetZoom(zoom);
    }

    /** `OrientationToggled`. */
    method OnOrientationToggled()
      requires Valid()
      modifies layout`page, canvas`layout, this`isModified
      ensures Valid()
      ensures layout.page == Toggled(old(layout.page))
      ensures canvas.layout == layout.Data() && isModified
    {
      layout.page := Toggled(layout.page);
      canvas.SetLayout(layout.Data());
      isModified := true;
    }

    /** `BorderlessToggled`. */
    method OnBorderlessToggled(enabled: bool)
      requires Valid()
      modifies layout`page, canvas`layout, this`isModified
      ensures Valid()
      ensures layout.page == WithBorderless(old(layout.page), enabled)
      ensures canvas.layout == layout.Data() && isModified
    {
      layout.page := WithBorderless(layout.page, enabled);
      canvas.SetLayout(layout.Data());
      isModified := true;
    }

    /** `CopiesChanged`: the copies field's text, taken when it is a count from 1 to 99. */
    method OnCopiesChanged(value: string)
      modifies this`printCopies
      ensures printCopies == AcceptedCopies(value).GetOr(old(printCopies))
      ensures 1 <= old(printCopies) <= MaxCopies ==> 1 <= printCopies <= MaxCopies
    {
      var accepted := AcceptedCopies(value);
      if accepted.Some? {
        printCopies := accepted.value;
      }
    }

    /** `ThumbnailClicked`: selects the id; no drag starts. */
    method OnThumbnailClicked(id: string)
      requires Valid()
      modifies layout`selectedImageId, canvas`layout
      ensures Valid()
      ensures layout.selectedImageId == Some(id) && canvas.layout == layout.Data()
    {
      layout.selectedImageId := Some(id);
      canvas.SetLayout(layout.Data());
    }

    /** The selected image exists. */
    predicate HasSelection()
      reads this, layout
    {
      SelectedIndex(layout.images, layout.selectedImageId).Some?
    }

    /**
     * An edit of the selected image (`selected_image_mut`): with a selected
     * image present it is edited, the canvas refreshed and the layout marked
     * modified; otherwise nothing changes.
     */
    method EditSelected(e: ImageEdit)
      requires Valid()
      requires HasSelection() ==> Applicable(e, layout.images[SelectedIndex(layout.images, layout.selectedImageId).value])
      modifies layout`images, canvas`layout, this`isModified
      ensures Valid()
      ensures !old(HasSelection()) ==>
                layout.images == old(layout.images) && canvas.layout == old(canvas.layout) && isModified == old(isModified)
      ensures old(HasSelection()) ==>
                && layout.images == EditImage(old(layout.images), layout.selectedImageId.value, e)
                && canvas.layout == layout.Data() && isModified
    {
      if HasSelection() {
        EditKeepsInvariants(layout.images, layout.selectedImageId.value, e);
        layout.images := EditImage(layout.images, layout.selectedImageId.value, e);
        canvas.SetLayout(layout.Data());
        isModified := true;
      }
    }

    /** `RotateImageCW`. */
    method OnRotateImageClockwise()
      requires Valid()
      modifies layout`images, canvas`layout, this`isModified
      ensures Valid()
      ensures !old(HasSelection()) ==> layout.images == old(layout.images) && isModified == old(isModified)
      ensures old(HasSelection()) ==>
                layout.images == EditImage(old(layout.images), layout.selectedImageId.value, RotateClockwise) && isModified
    {
      EditSelected(RotateClockwise);
    }

    /** `RotateImageCCW`. */
    method OnRotateImageCounterClockwise()
      requires Valid()
      modifies layout`images, canvas`layout, this`isModified
      ensures Valid()
      ensures !old(HasSelection()) ==> layout.images == old(layout.images) && isModified == old(isModified)
      ensures old(HasSelection()) ==>
                layout.images == EditImage(old(layout.images), layout.selectedImageId.value, RotateCounterClockwise) && isModified
    {
      EditSelected(RotateCounterClockwise);
    }

    /** `FlipImageHorizontal`. */
    method OnFlipImageHorizontal()
      requires Valid()
      modifies layout`images, canvas`layout, this`isModified
      ensures Valid()
      ensures !old(HasSelection()) ==> layout.images == old(layout.images) && isModified == old(isModified)
      ensures old(HasSelection()) ==>
                layout.images == EditImage(old(layout.images), layout.selectedImageId.value, FlipHorizontally) && isModified
    {
      EditSelected(FlipHorizontally);
    }

    /** `FlipImageVertical`. */
    method OnFlipImageVertical()
      requires Valid()
      modifies layout`images, canvas`layout, this`isModified
      ensures Valid()
      ensures !old(HasSelection()) ==> layout.images == old(layout.images) && isModified == old(isModified)
      ensures old(HasSelection()) ==>
                layout.images == EditImage(old(layout.images), layout.selectedImageId.value, FlipVertically) && isModified
    {
      EditSelected(FlipVertically);
    }

    /** `ImageOpacityChanged` with the parsed percentage: the selected image's opacity, clamped to [0, 1]. */
    method OnImageOpacityChanged(parsed: Option<real>)
      requires Valid()
      modifies layout`images, canvas`layout, this`isModified
      ensures Valid()
      ensures parsed.None? || !old(HasSelection()) ==>
                layout.images == old(layout.images) && isModified == old(isModified)
      ensures parsed.Some? && old(HasSelection()) ==>
                layout.images == EditImage(old(layout.images), layout.selectedImageId.value,
                                           SetOpacity(OpacityFromPercent(parsed.value))) && isModified
    {
      if parsed.Some? {
        EditSelected(SetOpacity(OpacityFromPercent(parsed.value)));
      }
    }

    /** `ImageWidthChanged` with the parsed width: a positive width for the selected image. */
    method OnImageWidthChanged(parsed: Option<real>)
      requires Valid()
      modifies layout`images, canvas`layout, this`isModified
      ensures Valid()
      ensures parsed.None? || parsed.value <= 0.0 || !old(HasSelection()) ==>
                layout.images == old(layout.images) && isModified == old(isModified)
      ensures parsed.Some? && parsed.value > 0.0 && old(HasSelection()) ==>
                layout.images == EditImage(old(layout.images), layout.selectedImageId.value,
                                           SetWidth(parsed.value, maintainAspectRatio)) && isModified
    {
      if parsed.Some? && parsed.value > 0.0 {
        EditSelected(SetWidth(parsed.value, maintainAspectRatio));
      }
    }

    /** `ImageHeightChanged` with the parsed height: a positive height for the selected image. */
    method OnImageHeightChanged(parsed: Option<real>)
      requires Valid()
      modifies layout`images, canvas`layout, this`isModified
      ensures Valid()
      ensures parsed.None? || parsed.value <= 0.0 || !old(HasSelection()) ==>
                layout.images == old(layout.images) && isModified == old(isModified)
      ensures parsed.Some? && parsed.value > 0.0 && old(HasSelection()) ==>
                layout.images == EditImage(old(layout.images), layout.selectedImageId.value,
                                           SetHeight(parsed.value, maintainAspectRatio)) && isModified
    {
      if parsed.Some? && parsed.value > 0.0 {
        EditSelected(SetHeight(parsed.value, maintainAspectRatio));
      }
    }

    /** `MaintainAspectRatio`. */
    method OnMaintainAspectRatio(maintain: bool)
      modifies this`maintainAspectRatio
      ensures maintainAspectRatio == maintain
    {
      maintainAspectRatio := maintain;
    }

    /** `NewLayout`: an empty A4 layout, no file and no unsaved changes. */
    method OnNewLayout()
      requires Valid()
      modifies layout, canvas`layout, this`currentFile, this`isModified
      ensures Valid()
      ensures layout.page == NewPage(A4) && layout.images == [] && layout.selectedImageId.None?
      ensures canvas.layout == layout.Data()
      ensures currentFile.None? && !isModified
    {
      layout.page := NewPage(A4);
      layout.images := [];
      layout.selectedImageId := None;
      canvas.SetLayout(layout.Data());
      currentFile := None;
      isModified := false;
    }

    /** `PrintersDiscovered`: the list, and the printer choice it gives. */
    method OnPrintersDiscovered(discovered: seq<Printing.PrinterInfo>)
      modifies this`printers, this`selectedPrinter
      ensures printers == discovered
      ensures selectedPrinter == ChosenPrinter(discovered, old(selectedPrinter))
    {
      printers := discovered;
      var d := Printing.FirstDefaultPrinter(printers);
      if d.Some? {
        selectedPrinter := Some(d.value.name);
      } else if |printers| > 0 {
        selectedPrinter := Some(printers[0].name);
      }
    }

    /** `PrinterSelected`. */
    method OnPrinterSelected(name: string)
      modifies this`selectedPrinter
      ensures selectedPrinter == Some(name)
    {
      selectedPrinter := Some(name);
    }

    /**
     * `PrintClicked`: with no images or no chosen printer nothing happens;
     * otherwise the status becomes rendering and the job to run is returned.
     */
    method OnPrintClicked() returns (job: Option<Printing.PrintJob>)
      modifies this`printStatus
      ensures job.None? <==> |layout.images| == 0 || selectedPrinter.None?
      ensures job.None? ==> printStatus == old(printStatus)
      ensures job.Some? ==>
                && job.value == Printing.PrintJob(layout.Data(), selectedPrinter.value, printCopies, printDpi, [])
                && printStatus == Rendering
    {
      if |layout.images| == 0 || selectedPrinter.None? {
        return None;
      }
      printStatus := Rendering;
      job := Some(Printing.PrintJob(layout.Data(), selectedPrinter.value, printCopies, printDpi, []));
    }

    /**
     * `PrintJobCompleted`: a job id completes the status and records the
     * current settings as the last successful ones, at time `now`; an error
     * fails the status.
     */
    method OnPrintJobCompleted(result: Result<string, string>, now: int)
      modifies this`printStatus, this`preferences
      ensures result.Err? ==> printStatus == Failed(result.error) && preferences == old(preferences)
      ensures result.Ok? ==>
                var p := layout.page;
                && printStatus == Completed(result.value)
                && preferences == old(preferences).(lastPrintSettings := LastPrintSettings(
                     selectedPrinter, Some(p.paperSize), Some(p.paperType), Some(p.printQuality), Some(p.colorMode),
                     Some(p.orientation), Some(p.borderless), Some(printCopies),
                     Some((p.marginTopMm, p.marginBottomMm, p.marginLeftMm, p.marginRightMm)), Some(now)))
    {
      match result
      case Ok(jobId) =>
        printStatus := Completed(jobId);
        var p := layout.page;
        preferences := preferences.(lastPrintSettings := LastPrintSettings(
          selectedPrinter, Some(p.paperSize), Some(p.paperType), Some(p.printQuality), Some(p.colorMode),
          Some(p.orientation), Some(p.borderless), Some(printCopies),
          Some((p.marginTopMm, p.marginBottomMm, p.marginLeftMm, p.marginRightMm)), Some(now)));
      case Err(e) =>
        printStatus := Failed(e);
    }

    /** `DismissPrintStatus`. */
    method OnDismissPrintStatus()
      modifies this`printStatus
      ensures printStatus == NotPrinting
    {
      printStatus := NotPrinting;
    }

    /** `PrintLayout::title`. */
    function WindowTitle(): (r: string)
      reads this
      ensures r == Title(currentFile, isModified)
    {
      Title(currentFile, isModified)
    }
  }

  /** Renumbering after appending one image renumbers the old ones and numbers the new one last. */
  lemma ReindexedSnoc(images: seq<PlacedImage>, img: PlacedImage)
    ensures Reindexed(images + [img]) == Reindexed(images) + [img.(zIndex := |images|)]
  {
    assert forall i :: 0 <= i < |images| ==> Reindexed(images + [img])[i] == (Reindexed(images) + [img.(zIndex := |images|)])[i];
  }
}
