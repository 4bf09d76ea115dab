/**
 * The scene model: paper sizes, the page, images placed on it, and the layout
 * that owns them. Millimetre quantities are `real`; pixel counts are `nat`.
 */
module Layout {
  import opened Wrappers

  /** Millimetres per inch. */
  const MmPerInch: real := 25.4

  /** The margin, in millimetres, that a new page gets on every side (one inch). */
  const DefaultMarginMm: real := 25.4

  datatype PaperSize =
    | A0 | A1 | A2 | A3 | A4 | A5 | A6 | A7 | A8 | A9 | A10
    | B0 | B1 | B2 | B3 | B4 | B5 | B6 | B7 | B8 | B9 | B10
    | Letter | Legal | Tabloid | Ledger
    | Photo3_5x5 | Photo4x6 | Photo5x5 | Photo5x7 | Photo7x10 | Photo8x10
    | Photo10x12 | Photo11x17 | Photo12x12 | Photo13x19 | Panorama
    | Custom(customWidth: real, customHeight: real)

  /** The ISO A and B series and the four North American sizes of the paper table. */
  predicate IsStandardSize(p: PaperSize) {
    || p.A0? || p.A1? || p.A2? || p.A3? || p.A4? || p.A5? || p.A6? || p.A7? || p.A8? || p.A9? || p.A10?
    || p.B0? || p.B1? || p.B2? || p.B3? || p.B4? || p.B5? || p.B6? || p.B7? || p.B8? || p.B9? || p.B10?
    || p.Letter? || p.Legal? || p.Tabloid? || p.Ledger?
  }

  /** `PaperSize::to_dimensions`: (width, height) in millimetres. */
  function ToDimensions(p: PaperSize): (r: (real, real))
    ensures !p.Custom? ==> r.0 > 0.0 && r.1 > 0.0
    ensures p.Custom? ==> r == (p.customWidth, p.customHeight)
  {
    match p
    case A0 => (841.0, 1189.0)
    case A1 => (594.0, 841.0)
    case A2 => (420.0, 594.0)
    case A3 => (297.0, 420.0)
    case A4 => (210.0, 297.0)
    case A5 => (148.0, 210.0)
    case A6 => (105.0, 148.0)
    case A7 => (74.0, 105.0)
    case A8 => (52.0, 74.0)
    case A9 => (37.0, 52.0)
    case A10 => (26.0, 37.0)
    case B0 => (1000.0, 1414.0)
    case B1 => (707.0, 1000.0)
    case B2 => (500.0, 707.0)
    case B3 => (353.0, 500.0)
    case B4 => (250.0, 353.0)
    case B5 => (176.0, 250.0)
    case B6 => (125.0, 176.0)
    case B7 => (88.0, 125.0)
    case B8 => (62.0, 88.0)
    case B9 => (44.0, 62.0)
    case B10 => (31.0, 44.0)
    case Letter => (215.9, 279.4)
    case Legal => (215.9, 355.6)
    case Tabloid => (279.4, 431.8)
    case Ledger => (431.8, 279.4)
    // The photo sizes, by the inch dimensions their names give.
    case Photo3_5x5 => (88.9, 127.0)
    case Photo4x6 => (101.6, 152.4)
    case Photo5x5 => (127.0, 127.0)
    case Photo5x7 => (127.0, 177.8)
    case Photo7x10 => (177.8, 254.0)
    case Photo8x10 => (203.2, 254.0)
    case Photo10x12 => (254.0, 304.8)
    case Photo11x17 => (279.4, 431.8)
    case Photo12x12 => (304.8, 304.8)
    case Photo13x19 => (330.2, 482.6)
    case Panorama => (210.0, 594.0)
    case Custom(w, h) => (w, h)
  }

  /** Every standard size is portrait except Ledger, which is Tabloid turned on its side. */
  lemma StandardSizesArePortraitExceptLedger(p: PaperSize)
    requires IsStandardSize(p)
    ensures p != Ledger ==> ToDimensions(p).0 < ToDimensions(p).1
    ensures p == Ledger ==> ToDimensions(p) == (ToDimensions(Tabloid).1, ToDimensions(Tabloid).0)
  {
  }

  /** Each A size is the next larger one halved along its long side, to the millimetre. */
  lemma ASeriesHalves()
    ensures ToDimensions(A1).1 == ToDimensions(A0).0 && ToDimensions(A2).1 == ToDimensions(A1).0
    ensures ToDimensions(A4) == (210.0, 297.0) && ToDimensions(A3).0 == ToDimensions(A4).1
    ensures ToDimensions(A5).1 == ToDimensions(A4).0
  {
  }

  /**
   * The paper types. The last six (`Plain` to `FineArt`) are not among the
   * variants the enum in `src/layout.rs:94-104` lists; they are the ones the
   * default preferences (`src/config.rs:53`) and the paper-type list of the
   * print settings (`src/main.rs:1153-1154`) name, so the enum these files
   * compile against has them too.
   */
  datatype PaperType =
    | MattePhoto | GlossPhoto | PhotoPaper | PrinterPaper | Satin | Canvas
    | RicePaper | Cardstock | Transparency
    | Plain | SuperHighGloss | Glossy | SemiGloss | Matte | FineArt

  datatype Orientation = Portrait | Landscape

  datatype PrintQuality = Highest | High | Standard | Draft

  datatype ColorMode = UseICCProfile | DriverMatching | NoColorCorrection | BlackAndWhite

  datatype Page = Page(
    widthMm: real,
    heightMm: real,
    marginTopMm: real,
    marginBottomMm: real,
    marginLeftMm: real,
    marginRightMm: real,
    paperSize: PaperSize,
    paperType: PaperType,
    orientation: Orientation,
    borderless: bool,
    printQuality: PrintQuality,
    colorMode: ColorMode)

  /** An axis-aligned rectangle: origin (x, y) and extent, in millimetres. */
  datatype Rect = Rect(x: real, y: real, width: real, height: real)

  /** `Page::new`: the paper's dimensions and a one-inch margin on every side. */
  function NewPage(paperSize: PaperSize): (r: Page)
    ensures (r.widthMm, r.heightMm) == ToDimensions(paperSize)
    ensures r.marginTopMm == r.marginBottomMm == r.marginLeftMm == r.marginRightMm == DefaultMarginMm
    ensures r.paperSize == paperSize && r.paperType == PrinterPaper
  {
    var (w, h) := ToDimensions(paperSize);
    Page(w, h, DefaultMarginMm, DefaultMarginMm, DefaultMarginMm, DefaultMarginMm,
         paperSize, PrinterPaper, Portrait, false, Standard, DriverMatching)
  }

  /** `Page::printable_area`: the page without its margins. */
  function PrintableArea(p: Page): (r: Rect)
    ensures r.x == p.marginLeftMm && r.y == p.marginTopMm
    ensures r.x + r.width + p.marginRightMm == p.widthMm
    ensures r.y + r.height + p.marginBottomMm == p.heightMm
  {
    Rect(p.marginLeftMm, p.marginTopMm,
         p.widthMm - p.marginLeftMm - p.marginRightMm,
         p.heightMm - p.marginTopMm - p.marginBottomMm)
  }

  /** The printable area has positive width and height exactly when each pair of opposite margins fits. */
  lemma PrintableAreaPositiveIff(p: Page)
    ensures PrintableArea(p).width > 0.0 <==> p.marginLeftMm + p.marginRightMm < p.widthMm
    ensures PrintableArea(p).height > 0.0 <==> p.marginTopMm + p.marginBottomMm < p.heightMm
  {
  }

  /** An A4 page with 10 mm margins has a 190 x 277 mm printable area. */
  lemma A4WithTenMillimetreMargins()
    ensures var p := NewPage(A4).(marginTopMm := 10.0, marginBottomMm := 10.0,
                                   marginLeftMm := 10.0, marginRightMm := 10.0);
            PrintableArea(p) == Rect(10.0, 10.0, 190.0, 277.0)
  {
  }

  /** The one-inch default margins do not fit on A10: its printable width is negative. */
  lemma DefaultMarginsOverflowA10()
    ensures PrintableArea(NewPage(A10)).width < 0.0
  {
  }

  /**
   * A length in millimetres as whole pixels at `dpi`: the float-to-unsigned
   * cast truncates, and a negative value becomes 0.
   */
  function MmToWholePixels(mm: real, dpi: nat): (r: nat)
    ensures mm >= 0.0 ==> r as real <= mm / MmPerInch * dpi as real < r as real + 1.0
    ensures mm < 0.0 ==> r == 0
  {
    var v := mm / MmPerInch * dpi as real;
    if v < 0.0 then 0 else v.Floor
  }

  /** `Page::to_pixels`: the page's width and height in whole pixels at `dpi`. */
  function ToPixels(p: Page, dpi: nat): (r: (nat, nat))
    ensures p.widthMm >= 0.0 ==> r.0 as real <= p.widthMm / MmPerInch * dpi as real < r.0 as real + 1.0
    ensures p.heightMm >= 0.0 ==> r.1 as real <= p.heightMm / MmPerInch * dpi as real < r.1 as real + 1.0
    ensures p.widthMm < 0.0 ==> r.0 == 0
    ensures p.heightMm < 0.0 ==> r.1 == 0
  {
    (MmToWholePixels(p.widthMm, dpi), MmToWholePixels(p.heightMm, dpi))
  }

  /** An A4 page is 2480 x 3507 pixels at 300 DPI. */
  lemma A4At300Dpi()
    ensures ToPixels(NewPage(A4), 300) == (2480, 3507)
  {
    var w := 210.0 / MmPerInch * 300.0;
    var h := 297.0 / MmPerInch * 300.0;
    assert 2480.0 <= w < 2481.0;
    assert 3507.0 <= h < 3508.0;
  }

  datatype PlacedImage = PlacedImage(
    id: string,
    path: string,
    xMm: real,
    yMm: real,
    widthMm: real,
    heightMm: real,
    rotationDegrees: real,
    zIndex: nat,
    originalWidthPx: nat,
    originalHeightPx: nat,
    locked: bool,
    opacity: real,
    flipHorizontal: bool,
    flipVertical: bool)

  /** The default width, in millimetres, of a newly placed image. */
  const DefaultImageWidthMm: real := 100.0

  /**
   * `PlacedImage::new`, with the generated identifier passed in: 100 mm wide,
   * as tall as the pixel aspect ratio makes it, at (50, 50), unrotated.
   */
  function NewPlacedImage(id: string, path: string, originalWidthPx: nat, originalHeightPx: nat): (r: PlacedImage)
    requires originalWidthPx > 0
    ensures r.id == id && r.path == path
    ensures r.widthMm == DefaultImageWidthMm
    ensures r.heightMm * originalWidthPx as real == DefaultImageWidthMm * originalHeightPx as real
    ensures r.xMm == 50.0 && r.yMm == 50.0
    ensures r.rotationDegrees == 0.0 && r.zIndex == 0 && !r.locked
    ensures r.originalWidthPx == originalWidthPx && r.originalHeightPx == originalHeightPx
    ensures r.opacity == 1.0 && !r.flipHorizontal && !r.flipVertical
  {
    var aspectRatio := originalHeightPx as real / originalWidthPx as real;
    PlacedImage(id, path, 50.0, 50.0, DefaultImageWidthMm, DefaultImageWidthMm * aspectRatio,
                0.0, 0, originalWidthPx, originalHeightPx, false, 1.0, false, false)
  }

  /**
   * `PlacedImage::effective_dpi`: pixels per printed inch along each axis, so
   * that DPI times the printed size in inches gives back the pixel count.
   */
  function EffectiveDpi(img: PlacedImage): (r: (real, real))
    requires img.widthMm > 0.0 && img.heightMm > 0.0
    ensures r.0 * (img.widthMm / MmPerInch) == img.originalWidthPx as real
    ensures r.1 * (img.heightMm / MmPerInch) == img.originalHeightPx as real
  {
    var widthInches := img.widthMm / MmPerInch;
    var heightInches := img.heightMm / MmPerInch;
    (img.originalWidthPx as real / widthInches, img.originalHeightPx as real / heightInches)
  }

  /** A 3000-pixel-wide image is 762 DPI at 100 mm and 76.2 DPI, below 150, at 1000 mm. */
  lemma EffectiveDpiOfA3000PixelImage(img: PlacedImage)
    requires img.originalWidthPx == 3000 && img.heightMm > 0.0
    ensures img.widthMm == 100.0 ==> EffectiveDpi(img).0 == 762.0
    ensures img.widthMm == 1000.0 ==> EffectiveDpi(img).0 == 76.2 < 150.0
  {
  }

  /** `PlacedImage::contains_point`: the closed rectangle, edges included. */
  predicate ContainsPoint(img: PlacedImage, x: real, y: real) {
    x >= img.xMm && x <= img.xMm + img.widthMm && y >= img.yMm && y <= img.yMm + img.heightMm
  }

  /** `PlacedImage::bounds`: (x, y, width, height). */
  function Bounds(img: PlacedImage): (r: Rect)
    ensures r.x == img.xMm && r.y == img.yMm && r.width == img.widthMm && r.height == img.heightMm
  {
    Rect(img.xMm, img.yMm, img.widthMm, img.heightMm)
  }

  /** The hit test is the closed rectangle of the bounds: all four corners and edges count. */
  lemma ContainsPointIsClosedBounds(img: PlacedImage, x: real, y: real)
    requires img.widthMm >= 0.0 && img.heightMm >= 0.0
    ensures var b := Bounds(img);
            ContainsPoint(img, x, y) <==> b.x <= x <= b.x + b.width && b.y <= y <= b.y + b.height
    ensures var b := Bounds(img);
            && ContainsPoint(img, b.x, b.y) && ContainsPoint(img, b.x + b.width, b.y)
            && ContainsPoint(img, b.x, b.y + b.height) && ContainsPoint(img, b.x + b.width, b.y + b.height)
  {
  }

  /** The invariant `Layout` keeps: each image's z-index is its position. */
  ghost predicate ZIndexed(images: seq<PlacedImage>) {
    forall i :: 0 <= i < |images| ==> images[i].zIndex == i
  }

  /** `images` with every z-index reset to its position (the loop in `remove_image`). */
  function Reindexed(images: seq<PlacedImage>): (r: seq<PlacedImage>)
    ensures |r| == |images| && ZIndexed(r)
    ensures forall i :: 0 <= i < |r| ==> r[i] == images[i].(zIndex := i)
  {
    seq(|images|, i requires 0 <= i < |images| => images[i].(zIndex := i))
  }

  /** `iter().position(|img| img.id == id)`: the index of the first image with that id. */
  function FirstIndexOf(images: seq<PlacedImage>, id: string): (r: Option<nat>)
    ensures r.Some? ==> r.value < |images| && images[r.value].id == id
    ensures r.Some? ==> forall j :: 0 <= j < r.value ==> images[j].id != id
    ensures r.None? <==> forall j :: 0 <= j < |images| ==> images[j].id != id
  {
    if |images| == 0 then None
    else if images[0].id == id then Some(0)
    else
      match FirstIndexOf(images[1..], id)
      case None => None
      case Some(k) => Some(k + 1)
  }

  /** The images `remove_image` leaves: the first image with that id taken out, the rest renumbered. */
  function ImagesAfterRemoval(images: seq<PlacedImage>, id: string): (r: seq<PlacedImage>)
    ensures ZIndexed(images) ==> ZIndexed(r)
    ensures FirstIndexOf(images, id).None? ==> r == images
    ensures FirstIndexOf(images, id).Some? ==> |r| == |images| - 1
  {
    match FirstIndexOf(images, id)
    case None => images
    case Some(k) => Reindexed(images[..k] + images[k + 1..])
  }

  /**
   * Removing the first image with `id` keeps the images before it, shifts
   * the ones after it down by one with their z-index set to the new
   * position, and is one image shorter.
   */
  lemma ImagesAfterRemovalShape(images: seq<PlacedImage>, id: string)
    requires FirstIndexOf(images, id).Some?
    ensures var k := FirstIndexOf(images, id).value;
            var r := ImagesAfterRemoval(images, id);
            && |r| == |images| - 1
            && (forall i :: 0 <= i < k ==> r[i] == images[i].(zIndex := i))
            && (forall i :: k <= i < |r| ==> r[i] == images[i + 1].(zIndex := i))
            && (ZIndexed(images) ==> forall i :: 0 <= i < k ==> r[i] == images[i])
  {
    var k := FirstIndexOf(images, id).value;
    var rest := images[..k] + images[k + 1..];
    var r := ImagesAfterRemoval(images, id);
    assert r == Reindexed(rest);
    forall i | 0 <= i < k
      ensures r[i] == images[i].(zIndex := i)
    {
      assert rest[i] == images[i];
    }
    forall i | k <= i < |r|
      ensures r[i] == images[i + 1].(zIndex := i)
    {
      assert rest[i] == images[i + 1];
    }
    if ZIndexed(images) {
      forall i | 0 <= i < k
        ensures r[i] == images[i]
      {
        assert images[i].zIndex == i;
      }
    }
  }

  /** `Layout::get_image`: the first image with that id, if any. */
  function GetImage(images: seq<PlacedImage>, id: string): (r: Option<PlacedImage>)
    ensures r.Some? ==> r.value.id == id && FirstIndexOf(images, id).Some?
    ensures r.Some? ==> r.value == images[FirstIndexOf(images, id).value]
    ensures r.None? <==> forall j :: 0 <= j < |images| ==> images[j].id != id
  {
    match FirstIndexOf(images, id)
    case None => None
    case Some(k) => Some(images[k])
  }

  /**
   * `Layout::find_image_at_point`: searching from the top of the stack (the
   * end of the vector), the first image whose closed bounds hold the point.
   */
  function FindImageAtPoint(images: seq<PlacedImage>, x: real, y: real): (r: Option<PlacedImage>)
    ensures r.Some? ==> exists k :: 0 <= k < |images| && images[k] == r.value && ContainsPoint(images[k], x, y)
                                    && forall j :: k < j < |images| ==> !ContainsPoint(images[j], x, y)
    ensures r.None? <==> forall j :: 0 <= j < |images| ==> !ContainsPoint(images[j], x, y)
    decreases |images|
  {
    if |images| == 0 then None
    else if ContainsPoint(images[|images| - 1], x, y) then Some(images[|images| - 1])
    else
      var r := FindImageAtPoint(images[..|images| - 1], x, y);
      assert forall j :: 0 <= j < |images| - 1 ==> images[..|images| - 1][j] == images[j];
      r
  }

  /** Of two overlapping images, the hit test at a shared point returns the one added later. */
  lemma TopmostImageWins(images: seq<PlacedImage>, lower: nat, upper: nat, x: real, y: real)
    requires lower < upper < |images|
    requires ContainsPoint(images[lower], x, y) && ContainsPoint(images[upper], x, y)
    requires forall j :: upper < j < |images| ==> !ContainsPoint(images[j], x, y)
    ensures FindImageAtPoint(images, x, y) == Some(images[upper])
  {
    var r := FindImageAtPoint(images, x, y);
    var k :| 0 <= k < |images| && images[k] == r.value && ContainsPoint(images[k], x, y)
             && forall j :: k < j < |images| ==> !ContainsPoint(images[j], x, y);
    assert k == upper;
  }

  /** A snapshot of a layout (what `Layout::clone` hands to the canvas and to print jobs). */
  datatype LayoutData = LayoutData(page: Page, images: seq<PlacedImage>, selectedImageId: Option<string>)

  /** The index of the selected image, if the selection names an image that is present. */
  function SelectedIndex(images: seq<PlacedImage>, selectedImageId: Option<string>): (r: Option<nat>)
    ensures selectedImageId.None? ==> r.None?
    ensures selectedImageId.Some? ==> r == FirstIndexOf(images, selectedImageId.value)
  {
    match selectedImageId
    case None => None
    case Some(id) => FirstIndexOf(images, id)
  }

  /** `Layout::selected_image`: none without a selection or when the selected id is absent. */
  function SelectedImage(layout: LayoutData): (r: Option<PlacedImage>)
    ensures r.None? <==> layout.selectedImageId.None?
                         || forall j :: 0 <= j < |layout.images| ==> layout.images[j].id != layout.selectedImageId.value
    ensures r.Some? ==> r.value.id == layout.selectedImageId.value
    ensures r.Some? ==> exists k :: 0 <= k < |layout.images| && layout.images[k] == r.value
                                    && forall j :: 0 <= j < k ==> layout.images[j].id != r.value.id
  {
    match layout.selectedImageId
    case None => None
    case Some(id) => GetImage(layout.images, id)
  }

  /** `Layout`: a page, the images in z-order and the selection. */
  class Layout {
    var page: Page
    var images: seq<PlacedImage>
    var selectedImageId: Option<string>

    ghost predicate Valid()
      reads this
    {
      ZIndexed(images)
    }

    /** `Layout::new`: an A4 page, no images, nothing selected. */
    constructor ()
      ensures Valid()
      ensures page == NewPage(A4) && images == [] && selectedImageId == None
    {
      page := NewPage(A4);
      images := [];
      selectedImageId := None;
    }

    /** `Layout::clone`. */
    function Data(): (r: LayoutData)
      reads this
      ensures r.page == page && r.images == images && r.selectedImageId == selectedImageId
    {
      LayoutData(page, images, selectedImageId)
    }

    /** `Layout::add_image`: appends the image on top, with z-index the old length. */
    method AddImage(image: PlacedImage)
      requires Valid()
      modifies this`images
      ensures Valid()
      ensures images == old(images) + [image.(zIndex := |old(images)|)]
    {
      var zIndex := |images|;
      images := images + [image.(zIndex := zIndex)];
    }

    /**
     * `Layout::remove_image`: removes the first image with that id, keeps the
     * others in order renumbered to their new positions, and clears the
     * selection when it named the removed id. An absent id changes nothing.
     */
    method RemoveImage(id: string) returns (removed: Option<PlacedImage>)
      requires Valid()
      modifies this`images, this`selectedImageId
      ensures Valid()
      ensures images == ImagesAfterRemoval(old(images), id)
      ensures FirstIndexOf(old(images), id).None? ==> removed.None? && selectedImageId == old(selectedImageId)
      ensures FirstIndexOf(old(images), id).Some? ==>
                && removed == Some(old(images)[FirstIndexOf(old(images), id).value])
                && selectedImageId == (if old(selectedImageId) == Some(id) then None else old(selectedImageId))
    {
      var position := FirstIndexOf(images, id);
      if position.None? {
        return None;
      }
      var index := position.value;
      removed := Some(images[index]);
      images := images[..index] + images[index + 1..];
      ghost var rest := images;
      var i := 0;
      while i < |images|
        invariant 0 <= i <= |images| == |rest|
        invariant forall j :: 0 <= j < i ==> images[j] == rest[j].(zIndex := j)
        invariant forall j :: i <= j < |images| ==> images[j] == rest[j]
        invariant selectedImageId == old(selectedImageId)
      {
        images := images[i := images[i].(zIndex := i)];
        i := i + 1;
      }
      if selectedImageId == Some(id) {
        selectedImageId := None;
      }
      assert forall j :: 0 <= j < |images| ==> images[j] == Reindexed(rest)[j];
    }
  }
}
