/** PDFExportService.generatePDF: one A4 page per image, each image scaled
    uniformly to fit inside a 40-point margin and centred on its page. The
    placement arithmetic is stated over exact reals. */
module PdfExport {
  import opened Platform

  /** A4 (ISO 216) in PostScript points. */
  const PAGE_WIDTH: real := 595.0
  const PAGE_HEIGHT: real := 842.0
  const MARGIN: real := 40.0
  const MAX_WIDTH: real := PAGE_WIDTH - MARGIN * 2.0
  const MAX_HEIGHT: real := PAGE_HEIGHT - MARGIN * 2.0

  datatype Rect = Rect(x: real, y: real, width: real, height: real)

  /** The renderer's page bounds: origin zero, A4 size. */
  const PAGE_RECT: Rect := Rect(0.0, 0.0, PAGE_WIDTH, PAGE_HEIGHT)

  /** The printable area is the page less the margin on every side. */
  lemma PrintableArea()
    ensures MAX_WIDTH == 515.0 && MAX_HEIGHT == 762.0
    ensures MARGIN + MAX_WIDTH + MARGIN == PAGE_WIDTH
    ensures MARGIN + MAX_HEIGHT + MARGIN == PAGE_HEIGHT
  {
  }

  /** Swift's `min(x, y)`: `y < x ? y : x`. */
  function Min(x: real, y: real): (m: real)
    ensures m <= x && m <= y && (m == x || m == y)
  {
    if y < x then y else x
  }

  /** The rectangle `image.draw(in:)` is given for an image of size `w` x `h`.
      The source divides by both dimensions, so they must be positive. */
  function Placement(w: real, h: real): (r: Rect)
    requires w > 0.0 && h > 0.0
    // it fits the printable area and is not degenerate
    ensures 0.0 < r.width <= MAX_WIDTH && 0.0 < r.height <= MAX_HEIGHT
    // the aspect ratio is kept exactly
    ensures r.width * h == r.height * w
    // it fills the printable area in at least one dimension
    ensures r.width == MAX_WIDTH || r.height == MAX_HEIGHT
    // it is centred on the page, hence inside the margins
    ensures 2.0 * r.x + r.width == PAGE_WIDTH && 2.0 * r.y + r.height == PAGE_HEIGHT
    ensures MARGIN <= r.x && r.x + r.width <= PAGE_WIDTH - MARGIN
    ensures MARGIN <= r.y && r.y + r.height <= PAGE_HEIGHT - MARGIN
  {
    var widthScale := MAX_WIDTH / w;
    var heightScale := MAX_HEIGHT / h;
    var scale := Min(widthScale, heightScale);
    var newWidth := w * scale;
    var newHeight := h * scale;
    assert newWidth <= MAX_WIDTH by {
      assert w * scale <= w * widthScale;
    }
    assert newHeight <= MAX_HEIGHT by {
      assert h * scale <= h * heightScale;
    }
    assert newWidth == MAX_WIDTH || newHeight == MAX_HEIGHT;
    Rect((PAGE_WIDTH - newWidth) / 2.0, (PAGE_HEIGHT - newHeight) / 2.0, newWidth, newHeight)
  }

  /** Which edge the image touches: the full printable width exactly when the
      image is at least as wide, relative to its height, as the printable
      area, and the full printable height exactly when it is at least as tall. */
  lemma PlacementTouches(w: real, h: real)
    requires w > 0.0 && h > 0.0
    ensures Placement(w, h).width == MAX_WIDTH <==> MAX_WIDTH * h <= MAX_HEIGHT * w
    ensures Placement(w, h).height == MAX_HEIGHT <==> MAX_HEIGHT * w <= MAX_WIDTH * h
  {
    var r := Placement(w, h);
    if MAX_WIDTH * h <= MAX_HEIGHT * w {
      assert MAX_WIDTH / w <= MAX_HEIGHT / h;
      assert r.width == MAX_WIDTH;
    } else {
      assert MAX_HEIGHT / h < MAX_WIDTH / w;
      assert r.height == MAX_HEIGHT;
      assert r.width != MAX_WIDTH;
    }
    if MAX_HEIGHT * w <= MAX_WIDTH * h {
      assert MAX_HEIGHT / h <= MAX_WIDTH / w;
      assert r.height == MAX_HEIGHT;
    } else {
      assert MAX_WIDTH / w < MAX_HEIGHT / h;
      assert r.width == MAX_WIDTH;
      assert r.height != MAX_HEIGHT;
    }
  }

  /** The placement is the only rectangle that fits the printable area, keeps
      the aspect ratio, fills one dimension and is centred on the page. */
  lemma PlacementUnique(w: real, h: real, r: Rect)
    requires w > 0.0 && h > 0.0
    requires r.width <= MAX_WIDTH && r.height <= MAX_HEIGHT
    requires r.width * h == r.height * w
    requires r.width == MAX_WIDTH || r.height == MAX_HEIGHT
    requires 2.0 * r.x + r.width == PAGE_WIDTH && 2.0 * r.y + r.height == PAGE_HEIGHT
    ensures r == Placement(w, h)
  {
    var p := Placement(w, h);
    PlacementTouches(w, h);
    if r.width == MAX_WIDTH {
      assert MAX_WIDTH * h <= MAX_HEIGHT * w by {
        assert MAX_WIDTH * h == r.height * w;
      }
      assert p.width == MAX_WIDTH;
      assert p.height * w == r.height * w;
    } else {
      assert MAX_HEIGHT * w <= MAX_WIDTH * h by {
        assert MAX_HEIGHT * w == r.width * h;
      }
      assert p.height == MAX_HEIGHT;
      assert p.width * h == r.width * h;
    }
  }

  /** One `image.draw(in: rect)` into the current page. */
  datatype Drawing = Drawing(image: Image, rect: Rect)

  /** A page begun by `context.beginPage()`, with what was drawn into it. */
  datatype RenderedPage = RenderedPage(bounds: Rect, drawings: seq<Drawing>)

  predicate Drawable(image: Image)
  {
    image.width > 0.0 && image.height > 0.0
  }

  /** The page the loop body produces for one image. */
  function PageFor(image: Image): RenderedPage
    requires Drawable(image)
  {
    RenderedPage(PAGE_RECT, [Drawing(image, Placement(image.width, image.height))])
  }

  /** The pages the renderer holds after the loop has run over `images`. */
  function Render(images: seq<Image>): seq<RenderedPage>
    requires forall i :: 0 <= i < |images| ==> Drawable(images[i])
  {
    if images == [] then []
    else Render(images[..|images| - 1]) + [PageFor(images[|images| - 1])]
  }

  /** Exactly one page per image, in input order, each holding just that
      image at its placement on an A4 page. */
  lemma {:induction false} RenderOnePagePerImage(images: seq<Image>)
    requires forall i :: 0 <= i < |images| ==> Drawable(images[i])
    ensures |Render(images)| == |images|
    ensures forall i :: 0 <= i < |images| ==>
      Render(images)[i].bounds == PAGE_RECT &&
      Render(images)[i].drawings == [Drawing(images[i], Placement(images[i].width, images[i].height))]
  {
    if images != [] {
      RenderOnePagePerImage(images[..|images| - 1]);
    }
  }

  /** The `UIGraphicsPDFRendererContext` the drawing closure writes into. */
  class RendererContext {
    var bounds: Rect
    var pages: seq<RenderedPage>

    constructor (bounds: Rect)
      ensures this.bounds == bounds && pages == []
    {
      this.bounds := bounds;
      pages := [];
    }

    /** `beginPage()`: a new empty page with the renderer's bounds. */
    method BeginPage()
      modifies this
      ensures bounds == old(bounds)
      ensures pages == old(pages) + [RenderedPage(bounds, [])]
    {
      pages := pages + [RenderedPage(bounds, [])];
    }

    /** `image.draw(in: rect)`: draws into the current (last) page. */
    method Draw(image: Image, rect: Rect)
      requires pages != []
      modifies this
      ensures bounds == old(bounds)
      ensures var current := old(pages[|pages| - 1]);
        pages == old(pages[..|pages| - 1]) + [current.(drawings := current.drawings + [Drawing(image, rect)])]
    {
      var last := pages[|pages| - 1];
      pages := pages[..|pages| - 1] + [last.(drawings := last.drawings + [Drawing(image, rect)])];
    }
  }

  /** The body of `renderer.pdfData { context in ... }`: for each image, in
      order, begin a page and draw the image at its placement. */
  method RenderPages(images: seq<Image>) returns (pages: seq<RenderedPage>)
    requires forall i :: 0 <= i < |images| ==> Drawable(images[i])
    ensures pages == Render(images)
    ensures |pages| == |images|
    ensures forall i :: 0 <= i < |images| ==> pages[i] == PageFor(images[i])
  {
    var context := new RendererContext(PAGE_RECT);
    for k := 0 to |images|
      invariant context.bounds == PAGE_RECT
      invariant context.pages == Render(images[..k])
    {
      ghost var done := context.pages;
      context.BeginPage();
      assert context.pages[..|done|] == done;
      var image := images[k];
      var imageRect := Placement(image.width, image.height);
      ghost var begun := context.pages;
      context.Draw(image, imageRect);
      assert begun[..|begun| - 1] == done;
      assert [] + [Drawing(image, imageRect)] == [Drawing(image, imageRect)];
      assert context.pages == done + [PageFor(image)];
      assert images[..k + 1][..k] == images[..k];
      assert Render(images[..k + 1]) == Render(images[..k]) + [PageFor(image)];
    }
    assert images[..|images|] == images;
    pages := context.pages;
    RenderOnePagePerImage(images);
  }

  /** `NSError(domain: "PDFExport", code: -1)`, "Failed to validate PDF". */
  datatype ExportError = ValidationFailed

  /** `generatePDF(from:completion:)`, with the value handed to `completion`
      returned instead. `pdfData` is the renderer's serialization of the pages
      and `parse` is `PDFDocument(data:)`, the re-parse that validates it. */
  method GeneratePdf(images: seq<Image>, pdfData: seq<RenderedPage> -> Bytes,
                     parse: Bytes -> Option<Document>)
    returns (result: Result<Bytes, ExportError>)
    requires forall i :: 0 <= i < |images| ==> Drawable(images[i])
    ensures result.Success? ==> parse(result.value).Some?
    ensures result.Success? <==> parse(pdfData(Render(images))).Some?
    ensures result.Success? ==> result.value == pdfData(Render(images))
    ensures result.Failure? ==> result.error == ValidationFailed
  {
    var pages := RenderPages(images);
    var data := pdfData(pages);
    var validated := parse(data);
    if validated.Some? {
      result := Success(data);
    } else {
      result := Failure(ValidationFailed);
    }
  }
}
