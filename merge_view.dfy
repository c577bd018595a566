/** MergeView: a list of images and PDFs that the user merges into one PDF.
    Items are identified by a string id (equality and hashing use only the id);
    merging appends, item by item, the image's page or the PDF's pages to a new
    document, then serializes it and sets the screen's state flags. */
module Merge {
  import opened Platform
  import Decimal
  import Sequences

  /** `enum MergeableItem { case image(UIImage); case pdf(PDFDocument) }` */
  datatype MergeableItem = ImageEntry(image: Image) | PdfEntry(pdf: Document)

  /** `id`: an image's hash printed in decimal; for a PDF, "pdf-", its page
      count, "-", and its first page's hash (0 when it has no first page).
      An image id never starts with 'p', so an image never equals a PDF. */
  function Id(item: MergeableItem): (id: string)
    ensures |id| > 0
    ensures id[0] == 'p' <==> item.PdfEntry?
  {
    match item
    case ImageEntry(image) => Decimal.IntText(image.hash)
    case PdfEntry(pdf) =>
      "pdf-" + Decimal.NatText(pdf.PageCount()) + "-" + Decimal.IntText(pdf.FirstPageHash())
  }

  /** `static func ==`: items are equal when their ids are. */
  predicate Same(a: MergeableItem, b: MergeableItem)
  {
    Id(a) == Id(b)
  }

  /** `hash(into:)` combines only the id; `hasher` is the Swift hasher's
      (seeded, unspecified) function of the combined string. */
  function HashValue(hasher: string -> int, item: MergeableItem): int
  {
    hasher(Id(item))
  }

  /** Equal items hash alike, as `Hashable` requires. */
  lemma SameItemsHashAlike(hasher: string -> int, a: MergeableItem, b: MergeableItem)
    requires Same(a, b)
    ensures HashValue(hasher, a) == HashValue(hasher, b)
  {
  }

  /** Two image items are equal exactly when their images' hashes are. */
  lemma SameImages(a: Image, b: Image)
    ensures Same(ImageEntry(a), ImageEntry(b)) <==> a.hash == b.hash
  {
    Decimal.IntTextInjective(a.hash, b.hash);
  }

  /** In `a + "-" + x` with `a` all digits, the first '-' is right after `a`. */
  lemma FirstDash(a: string, x: string)
    requires Decimal.AllDigits(a)
    ensures Sequences.FirstIndex(a + "-" + x, '-') == Some(|a|)
  {
    var s := a + "-" + x;
    assert s[|a|] == '-';
    assert forall j :: 0 <= j < |a| ==> s[j] == a[j];
  }

  /** If `a + "-" + x == b + "-" + y` and neither `a` nor `b` holds a '-',
      the split is the same on both sides. */
  lemma SplitAtFirstDash(a: string, x: string, b: string, y: string)
    requires Decimal.AllDigits(a) && Decimal.AllDigits(b)
    requires a + "-" + x == b + "-" + y
    ensures a == b && x == y
  {
    var s := a + "-" + x;
    FirstDash(a, x);
    FirstDash(b, y);
    assert a == s[..|a|] == b;
    assert x == s[|a| + 1..] == y;
  }

  /** Two PDF items are equal exactly when the documents have the same page
      count and the same first-page hash, however different their pages. */
  lemma SamePdfs(d: Document, e: Document)
    ensures Same(PdfEntry(d), PdfEntry(e)) <==>
      d.PageCount() == e.PageCount() && d.FirstPageHash() == e.FirstPageHash()
  {
    var m, n := Decimal.NatText(d.PageCount()), Decimal.NatText(e.PageCount());
    var x, y := Decimal.IntText(d.FirstPageHash()), Decimal.IntText(e.FirstPageHash());
    if Same(PdfEntry(d), PdfEntry(e)) {
      assert Id(PdfEntry(d))[4..] == m + "-" + x;
      assert Id(PdfEntry(e))[4..] == n + "-" + y;
      SplitAtFirstDash(m, x, n, y);
      Decimal.NatTextInjective(d.PageCount(), e.PageCount());
      Decimal.IntTextInjective(d.FirstPageHash(), e.FirstPageHash());
    }
  }

  /** What one item adds to the merged document: an image its page when
      `PDFPage(image:)` succeeds and nothing otherwise; a PDF the pages
      `page(at:)` yields for `0..<pageCount`, in order. */
  function Contribution(item: MergeableItem): seq<Page>
  {
    match item
    case ImageEntry(image) => if image.asPage.Some? then [image.asPage.value] else []
    case PdfEntry(pdf) => Present(pdf.slots)
  }

  /** The merged document's pages: the contributions of the items, in order. */
  function MergedPages(items: seq<MergeableItem>): seq<Page>
  {
    if items == [] then []
    else MergedPages(items[..|items| - 1]) + Contribution(items[|items| - 1])
  }

  /** Merging two lists one after the other gives the pages of the first list
      followed by the pages of the second: pages already inserted are never
      moved or changed by the items that follow. */
  lemma {:induction false} MergedPagesAppend(a: seq<MergeableItem>, b: seq<MergeableItem>)
    ensures MergedPages(a + b) == MergedPages(a) + MergedPages(b)
  {
    if b == [] {
      assert a + b == a;
    } else {
      var b' := b[..|b| - 1];
      assert (a + b)[..|a + b| - 1] == a + b';
      assert (a + b)[|a + b| - 1] == b[|b| - 1];
      MergedPagesAppend(a, b');
      assert MergedPages(a + b) == MergedPages(a + b') + Contribution(b[|b| - 1]);
      assert MergedPages(b) == MergedPages(b') + Contribution(b[|b| - 1]);
    }
  }

  /** The number of image items whose `PDFPage(image:)` succeeds. */
  function ImagePageCount(items: seq<MergeableItem>): nat
  {
    if items == [] then 0
    else
      var last := items[|items| - 1];
      ImagePageCount(items[..|items| - 1]) + (if last.ImageEntry? && last.image.asPage.Some? then 1 else 0)
  }

  /** The sum of the PDF items' `pageCount`s. */
  function PdfPageCount(items: seq<MergeableItem>): nat
  {
    if items == [] then 0
    else
      var last := items[|items| - 1];
      PdfPageCount(items[..|items| - 1]) + (if last.PdfEntry? then last.pdf.PageCount() else 0)
  }

  /** The merged page count is at most the successful image pages plus the
      PDFs' page counts, and exactly that when every PDF yields all its pages. */
  lemma {:induction false} MergedPageCount(items: seq<MergeableItem>)
    ensures |MergedPages(items)| <= ImagePageCount(items) + PdfPageCount(items)
    ensures (forall k :: 0 <= k < |items| && items[k].PdfEntry? ==> items[k].pdf.AllPagesPresent()) ==>
      |MergedPages(items)| == ImagePageCount(items) + PdfPageCount(items)
  {
    if items != [] {
      var last := items[|items| - 1];
      MergedPageCount(items[..|items| - 1]);
      if last.PdfEntry? {
        PresentBounded(last.pdf.slots);
        if last.pdf.AllPagesPresent() {
          PresentAll(last.pdf.slots);
        }
      }
    }
  }

  /** The fold of `generateAndShowPDF`: a new empty document, then for each
      item its page or pages, each inserted at index `pageCount`. */
  method BuildMergedDocument(items: seq<MergeableItem>) returns (merged: seq<Page>)
    ensures merged == MergedPages(items)
  {
    merged := [];
    for k := 0 to |items|
      invariant merged == MergedPages(items[..k])
    {
      assert items[..k + 1][..k] == items[..k];
      merged := InsertContribution(merged, items[k]);
    }
    assert items[..|items|] == items;
  }

  /** The body of the fold for one item (the `switch`): each page goes in at
      index `pageCount`, so the item's contribution lands after what is there. */
  method InsertContribution(mergedPdf: seq<Page>, item: MergeableItem) returns (merged: seq<Page>)
    ensures merged == mergedPdf + Contribution(item)
  {
    merged := mergedPdf;
    match item
    case ImageEntry(image) =>
      if image.asPage.Some? {
        Sequences.InsertAtEndAppends(merged, image.asPage.value);
        merged := Sequences.InsertAt(merged, image.asPage.value, |merged|);
      }
    case PdfEntry(pdf) =>
      merged := InsertPdfPages(merged, pdf);
  }

  /** `for i in 0..<pdf.pageCount { if let page = pdf.page(at: i) { insert at
      pageCount } }`: appends the pages the document yields, in page order. */
  method InsertPdfPages(mergedPdf: seq<Page>, pdf: Document) returns (merged: seq<Page>)
    ensures merged == mergedPdf + Present(pdf.slots)
  {
    merged := mergedPdf;
    for i := 0 to pdf.PageCount()
      invariant merged == mergedPdf + Present(pdf.slots[..i])
    {
      assert pdf.slots[..i + 1][..i] == pdf.slots[..i];
      if pdf.slots[i].Some? {
        Sequences.InsertAtEndAppends(merged, pdf.slots[i].value);
        merged := Sequences.InsertAt(merged, pdf.slots[i].value, |merged|);
      }
    }
    assert pdf.slots[..pdf.PageCount()] == pdf.slots;
  }

  /** Removing every item whose id is `id` (`removeAll { $0.id == id }`). */
  function RemoveAllWithId(items: seq<MergeableItem>, id: string): (r: seq<MergeableItem>)
    ensures |r| <= |items|
    ensures forall x :: x in r <==> x in items && Id(x) != id
  {
    if items == [] then []
    else if Id(items[0]) == id then RemoveAllWithId(items[1..], id)
    else
      assert forall x :: x in items <==> x == items[0] || x in items[1..];
      [items[0]] + RemoveAllWithId(items[1..], id)
  }

  /** Removal works piecewise, so the remaining items keep their relative order. */
  lemma {:induction false} RemoveAllAppend(a: seq<MergeableItem>, b: seq<MergeableItem>, id: string)
    ensures RemoveAllWithId(a + b, id) == RemoveAllWithId(a, id) + RemoveAllWithId(b, id)
  {
    if a == [] {
      assert a + b == b;
    } else {
      assert (a + b)[0] == a[0];
      assert (a + b)[1..] == a[1..] + b;
      RemoveAllAppend(a[1..], b, id);
    }
  }

  /** A list holding no item with `id` is left exactly as it was. */
  lemma {:induction false} RemoveAllAbsent(items: seq<MergeableItem>, id: string)
    requires forall k :: 0 <= k < |items| ==> Id(items[k]) != id
    ensures RemoveAllWithId(items, id) == items
  {
    if items != [] {
      RemoveAllAbsent(items[1..], id);
    }
  }

  /** Uniform type of a picked file, as `resourceValues` reports it. */
  datatype ContentType = PdfType | ImageType | OtherType

  /** A URL from the file importer with what the platform yields for it:
      `contentType` (None when `resourceValues` throws), `asPdf` from
      `PDFDocument(url:)`, `asImage` from `Data(contentsOf:)` then
      `UIImage(data:)`. */
  datatype FileUrl = FileUrl(contentType: Option<ContentType>, asPdf: Option<Document>, asImage: Option<Image>)

  /** What one URL appends: a PDF item for a PDF that loads, an image item
      for an image that decodes, nothing for anything else. */
  function ImportOf(url: FileUrl): seq<MergeableItem>
  {
    if url.contentType == Some(PdfType) then
      if url.asPdf.Some? then [PdfEntry(url.asPdf.value)] else []
    else if url.contentType == Some(ImageType) then
      if url.asImage.Some? then [ImageEntry(url.asImage.value)] else []
    else []
  }

  function Imported(urls: seq<FileUrl>): seq<MergeableItem>
  {
    if urls == [] then []
    else Imported(urls[..|urls| - 1]) + ImportOf(urls[|urls| - 1])
  }

  predicate Loads(url: FileUrl)
  {
    || (url.contentType == Some(PdfType) && url.asPdf.Some?)
    || (url.contentType == Some(ImageType) && url.asImage.Some?)
  }

  /** The item a URL that loads imports. */
  function LoadedItem(url: FileUrl): MergeableItem
    requires Loads(url)
  {
    if url.contentType == Some(PdfType) then PdfEntry(url.asPdf.value) else ImageEntry(url.asImage.value)
  }

  /** At most one item per URL; when every URL loads, exactly one, in URL order. */
  lemma {:induction false} ImportedInUrlOrder(urls: seq<FileUrl>)
    ensures |Imported(urls)| <= |urls|
    ensures (forall k :: 0 <= k < |urls| ==> Loads(urls[k])) ==> |Imported(urls)| == |urls|
    ensures (forall k :: 0 <= k < |urls| ==> Loads(urls[k])) ==>
      forall k :: 0 <= k < |Imported(urls)| ==> Imported(urls)[k] == LoadedItem(urls[k])
  {
    if urls != [] {
      ImportedInUrlOrder(urls[..|urls| - 1]);
    }
  }

  const MERGE_FAILED_MESSAGE: string := "無法生成合併的PDF"
  const READ_FAILED_PREFIX: string := "無法讀取文件: "

  /** The `@State` of the merge screen. */
  class MergeView {
    var items: seq<MergeableItem>
    var showingPdfPreview: bool
    var mergedPdfData: Option<Bytes>
    var isGenerating: bool
    var errorMessage: Option<string>

    constructor ()
      ensures items == [] && !showingPdfPreview && mergedPdfData == None
      ensures !isGenerating && errorMessage == None
    {
      items := [];
      showingPdfPreview := false;
      mergedPdfData := None;
      isGenerating := false;
      errorMessage := None;
    }

    /** The context-menu delete: removes every item equal to `item`. */
    method Delete(item: MergeableItem)
      modifies this
      ensures items == RemoveAllWithId(old(items), Id(item))
      ensures item !in items
      ensures showingPdfPreview == old(showingPdfPreview) && mergedPdfData == old(mergedPdfData)
      ensures isGenerating == old(isGenerating) && errorMessage == old(errorMessage)
    {
      items := RemoveAllWithId(items, Id(item));
    }

    /** "Clear all": `items.removeAll()`. */
    method ClearAll()
      modifies this
      ensures items == []
      ensures showingPdfPreview == old(showingPdfPreview) && mergedPdfData == old(mergedPdfData)
      ensures isGenerating == old(isGenerating) && errorMessage == old(errorMessage)
    {
      items := [];
    }

    /** `handleFileImporterResult`: on success appends, in URL order, what
        each URL imports; on failure only sets the error message. */
    method HandleFileImporterResult(result: Result<seq<FileUrl>, string>)
      modifies this
      ensures result.Success? ==> items == old(items) + Imported(result.value)
      ensures result.Success? ==> errorMessage == old(errorMessage)
      ensures result.Failure? ==> items == old(items)
      ensures result.Failure? ==> errorMessage == Some(READ_FAILED_PREFIX + result.error)
      ensures showingPdfPreview == old(showingPdfPreview) && mergedPdfData == old(mergedPdfData)
      ensures isGenerating == old(isGenerating)
    {
      match result
      case Success(urls) =>
        for k := 0 to |urls|
          invariant items == old(items) + Imported(urls[..k])
          invariant errorMessage == old(errorMessage)
          invariant showingPdfPreview == old(showingPdfPreview) && mergedPdfData == old(mergedPdfData)
          invariant isGenerating == old(isGenerating)
        {
          var url := urls[k];
          assert urls[..k + 1][..k] == urls[..k];
          if url.contentType == Some(PdfType) {
            if url.asPdf.Some? {
              items := items + [PdfEntry(url.asPdf.value)];
            }
          } else if url.contentType == Some(ImageType) {
            if url.asImage.Some? {
              items := items + [ImageEntry(url.asImage.value)];
            }
          }
        }
        assert urls[..|urls|] == urls;
      case Failure(description) =>
        errorMessage := Some(READ_FAILED_PREFIX + description);
    }

    /** `generateAndShowPDF`. `dataRepresentation` is PDFKit's serialization
        of the merged pages (None when it fails). Either the data is stored
        and the preview shown, or the error message is set; the item list is
        untouched and `isGenerating` is false again at the end. */
    method GenerateAndShowPdf(dataRepresentation: seq<Page> -> Option<Bytes>)
      modifies this
      ensures items == old(items) && !isGenerating
      ensures var data := dataRepresentation(MergedPages(old(items)));
        if data.Some? then
          mergedPdfData == data && showingPdfPreview && errorMessage == old(errorMessage)
        else
          errorMessage == Some(MERGE_FAILED_MESSAGE) &&
          mergedPdfData == old(mergedPdfData) && showingPdfPreview == old(showingPdfPreview)
    {
      isGenerating := true;
      var mergedPdf := BuildMergedDocument(items);
      var data := dataRepresentation(mergedPdf);
      if data.Some? {
        mergedPdfData := data;
        showingPdfPreview := true;
      } else {
        errorMessage := Some(MERGE_FAILED_MESSAGE);
      }
      isGenerating := false;
    }
  }
}
