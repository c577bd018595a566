# NekoPDFKit core, modelled in Dafny

NekoPDFKit is an iOS app that turns picked images into an A4 PDF and merges
images and PDFs into one PDF. Almost all of it is SwiftUI over PDFKit and
UIKit. This project models the sequential logic inside that glue:

- **Image-to-page layout** (`PDFExportService.generatePDF`, module `PdfExport`).
  Each image gets one 595 x 842-point page, the A4 size of ISO 216. Inside a
  40-point margin the image is scaled by `min(maxWidth/w, maxHeight/h)` and
  centred. The arithmetic is exact `real`. The loop that begins one page per
  image and draws into it works on a `RendererContext` class that stands for
  the PDF renderer's context.
- **Mixed image/PDF merge** (`MergeView`, module `Merge`). Items are the tagged
  union `MergeableItem`. Their identity is a string id, and `==` and `hash`
  use only that id. The merge is a fold: an image adds its page when
  `PDFPage(image:)` succeeds, and a PDF adds the pages `page(at:)` yields.
  Every page is inserted at index `pageCount`. The screen's `@State` is a class
  whose methods delete by id, clear all, import picked files and merge.
- **PDF-only merge** (`PDFMergeView`, module `PdfMerge`). It concatenates the
  pages of the selected documents. Deletion is by index. The document picker
  appends every file that exists, reads and parses, in URL order.
- **Image grid** (`PreviewGridView`, module `PreviewGrid`). Drag and drop is a
  `remove(at:)` then `insert(_:at:)` on the bound image array. The context-menu
  delete removes the first identical image.

Shared pieces:

- `Platform` holds the opaque platform values. An image has a size, an identity,
  a hash and the outcome of `PDFPage(image:)`. A page has an identity and a
  hash. A document is the sequence of what `page(at: i)` yields.
- `Sequences` holds Swift's array edits.
- `Decimal` holds `Int.description`, which the item ids are built from.

Platform calls whose outcome the app only tests are modelled as data fields or
function parameters. This covers page creation, serialization
(`dataRepresentation`, the renderer's `pdfData`), `PDFDocument(data:)`, the
Swift hasher, file existence and file reads. The proofs hold for every outcome
of these calls.

Four behaviours of the code that the model keeps:

- The mixed merge does not lay images out on A4 pages. It uses whatever page
  `PDFPage(image:)` returns, and silently skips an image whose page cannot be
  made.
- Export validation only checks that the bytes parse again. It does not compare
  page counts.
- Zero image dimensions are not reported as an error. The code simply divides
  by them.
- An empty item list gives an empty document.

## Model

| member | source | states |
|---|---|---|
| `PdfExport.PrintableArea` | NekoPDFKit/PDFExportService.swift:44-46 | the printable area is 515 x 762: the 595 x 842 page less the 40-point margin on each side |
| `PdfExport.Min` | NekoPDFKit/PDFExportService.swift:56 | Swift `min` returns one of its arguments, no greater than either |
| `PdfExport.Placement` | NekoPDFKit/PDFExportService.swift:41-66 | for positive image sizes the rectangle is non-degenerate, fits the printable area, keeps the aspect ratio exactly (`newW*h == newH*w`), fills at least one printable dimension, is centred on the page, and lies inside the margins |
| `PdfExport.PlacementTouches` | NekoPDFKit/PDFExportService.swift:52-60 | the placed width is the full printable width exactly when the image is relatively at least as wide as the printable area, and likewise for the height (both directions) |
| `PdfExport.PlacementUnique` | NekoPDFKit/PDFExportService.swift:52-66 | any rectangle that fits, keeps the aspect ratio, fills one dimension and is centred is the placement: the computation is the one such rectangle |
| `PdfExport.RenderOnePagePerImage` | NekoPDFKit/PDFExportService.swift:35-72 | the renderer ends with exactly one page per image, in input order, each an A4 page holding only that image at its placement |
| `PdfExport.RendererContext.constructor` | NekoPDFKit/PDFExportService.swift:28 | a new renderer context has the A4 bounds and no pages |
| `PdfExport.RendererContext.BeginPage` | NekoPDFKit/PDFExportService.swift:38 | `beginPage()` appends an empty page with the renderer's bounds and leaves the earlier pages alone |
| `PdfExport.RendererContext.Draw` | NekoPDFKit/PDFExportService.swift:71 | `image.draw(in:)` adds the drawing to the current (last) page only |
| `PdfExport.RenderPages` | NekoPDFKit/PDFExportService.swift:30-74 | the drawing closure's loop produces exactly the pages of the specification `Render` (one per image, in order) |
| `PdfExport.GeneratePdf` | NekoPDFKit/PDFExportService.swift:11-86 | the completion gets success with the rendered data exactly when the data parses again as a PDF, and the "Failed to validate PDF" error otherwise |
| `Platform.PresentBounded` | NekoPDFKit/PDFMergeView.swift:110-114 | copying a document's pages never yields more pages than its `pageCount` |
| `Platform.PresentAll` | NekoPDFKit/PDFMergeView.swift:110-114 | when `page(at:)` yields every page, the copied pages are exactly pages `0..<pageCount` in order |
| `Decimal.IntText` | NekoPDFKit/MergeView.swift:13 | `Int.description` is non-empty, starts with '-' exactly for negatives, and is all digits otherwise |
| `Decimal.NatTextInjective` | NekoPDFKit/MergeView.swift:16 | two page counts print the same exactly when they are equal |
| `Decimal.IntTextInjective` | NekoPDFKit/MergeView.swift:13 | two hashes print the same exactly when they are equal |
| `Merge.Id` | NekoPDFKit/MergeView.swift:10-18 | an item id is non-empty and starts with 'p' exactly for a PDF item, so an image item never equals a PDF item |
| `Merge.SameImages` | NekoPDFKit/MergeView.swift:10-27 | two image items are `==` exactly when their images' hashes are equal |
| `Merge.SamePdfs` | NekoPDFKit/MergeView.swift:10-27 | two PDF items are `==` exactly when their page counts and first-page hashes (0 without a first page) are equal, whatever their other pages are |
| `Merge.SameItemsHashAlike` | NekoPDFKit/MergeView.swift:21-27 | equal items hash alike, because `hash(into:)` combines only the id |
| `Merge.MergedPagesAppend` | NekoPDFKit/MergeView.swift:188-201 | merging `a + b` gives the pages of `a` followed by the pages of `b`: later items never move or change pages already inserted |
| `Merge.MergedPageCount` | NekoPDFKit/MergeView.swift:188-201 | the merged page count is at most the number of images whose page creation succeeds plus the sum of the PDFs' page counts, and exactly that when every PDF yields all its pages |
| `Merge.BuildMergedDocument` | NekoPDFKit/MergeView.swift:186-201 | the fold with its nested loop builds exactly the in-order concatenation of the items' contributions |
| `Merge.InsertContribution` | NekoPDFKit/MergeView.swift:189-200 | one `switch` step appends the item's contribution (an image's page or nothing; a PDF's pages) after the pages already there |
| `Merge.InsertPdfPages` | NekoPDFKit/MergeView.swift:195-199 | the per-PDF loop appends, in index order, the pages `page(at:)` yields, each at index `pageCount` |
| `Merge.RemoveAllWithId` | NekoPDFKit/MergeView.swift:53 | the result holds exactly the items of the list whose id differs from the removed one, and is no longer than the list |
| `Merge.RemoveAllAppend` | NekoPDFKit/MergeView.swift:53 | removal works piecewise over concatenation, so the remaining items keep their relative order |
| `Merge.RemoveAllAbsent` | NekoPDFKit/MergeView.swift:53 | removing an id that no item has leaves the list unchanged |
| `Merge.ImportedInUrlOrder` | NekoPDFKit/MergeView.swift:161-177 | importing adds at most one item per URL, and when every URL loads it adds exactly one per URL, in URL order: a PDF item for a PDF, an image item for an image |
| `Merge.MergeView.constructor` | NekoPDFKit/MergeView.swift:31-38 | the screen starts with no items, no data, no preview, not generating and no error |
| `Merge.MergeView.Delete` | NekoPDFKit/MergeView.swift:53 | deleting an item removes every item with its id, so no item equal to it remains; the other state is unchanged |
| `Merge.MergeView.ClearAll` | NekoPDFKit/MergeView.swift:143 | "clear all" empties the list and changes nothing else |
| `Merge.MergeView.HandleFileImporterResult` | NekoPDFKit/MergeView.swift:158-182 | on success the list gains, in URL order, a PDF item for each PDF-typed URL that loads and an image item for each image-typed URL that decodes, and other URLs change nothing; on failure only the "cannot read file" message is set |
| `Merge.MergeView.GenerateAndShowPdf` | NekoPDFKit/MergeView.swift:184-211 | afterwards `isGenerating` is false and the items are unchanged; either the serialized merge is stored and the preview shown, or the "cannot merge" message is set (the earlier error is kept on success) |
| `PdfMerge.ConcatPageCount` | NekoPDFKit/PDFMergeView.swift:108-115 | the merged page count is at most the sum of the documents' page counts, and equal to it when `page(at:)` yields every page |
| `PdfMerge.ConcatIsMergeOfPdfs` | NekoPDFKit/PDFMergeView.swift:108-115 | the PDF-only merge of some documents is the mixed merge of the same documents as PDF items |
| `PdfMerge.BuildMergedDocument` | NekoPDFKit/PDFMergeView.swift:105-115 | the nested loop builds exactly the concatenation, in selection order, of every document's pages in page order |
| `PdfMerge.PickedInUrlOrder` | NekoPDFKit/PDFMergeView.swift:193-214 | the picker adds at most one document per URL, and when every file exists, reads and parses it adds exactly those documents, in URL order |
| `PdfMerge.PdfMergeView.constructor` | NekoPDFKit/PDFMergeView.swift:6-11 | the screen starts with no documents, no data, no preview, not generating and no error |
| `PdfMerge.PdfMergeView.Delete` | NekoPDFKit/PDFMergeView.swift:32 | `remove(at: index)` removes exactly that document and changes nothing else |
| `PdfMerge.PdfMergeView.DocumentPicker` | NekoPDFKit/PDFMergeView.swift:190-218 | the list gains the picked documents that exist, read and parse, in URL order; missing or unparseable files leave it as it was |
| `PdfMerge.PdfMergeView.GenerateAndShowPdf` | NekoPDFKit/PDFMergeView.swift:100-126 | the error is cleared first; afterwards `isGenerating` is false, the selection is unchanged, and either the serialized concatenation is stored and the preview shown, or only the error message is set |
| `Sequences.FirstIndex` | NekoPDFKit/PreviewGridView.swift:68-69 | `firstIndex` returns the least index holding the element, and nil exactly when the element is absent |
| `Sequences.RemoveAt` | NekoPDFKit/PDFMergeView.swift:32 | `remove(at:)` drops one element: earlier elements keep their index, later ones shift down by one, and the multiset loses exactly that element |
| `Sequences.InsertAt` | NekoPDFKit/PreviewGridView.swift:73 | `insert(_:at:)` puts the element at the index, earlier elements keep theirs, later ones shift up by one, and the multiset gains exactly that element |
| `Sequences.InsertAtEndAppends` | NekoPDFKit/MergeView.swift:192 | inserting at index `pageCount` is an append |
| `Sequences.RemoveUndoesInsert` | NekoPDFKit/PreviewGridView.swift:72-73 | `remove(at: i)` undoes `insert(_:at: i)` |
| `Sequences.Move` | NekoPDFKit/PreviewGridView.swift:72-73 | remove-then-insert keeps the length and the multiset of elements, and puts the moved element at the target index |
| `Sequences.MoveKeepsOthersInOrder` | NekoPDFKit/PreviewGridView.swift:72-73 | after a move the other elements keep their relative order: deleting the moved element from the result gives the list with it deleted from its old index |
| `Sequences.MoveInPlace` | NekoPDFKit/PreviewGridView.swift:72-73 | moving an element onto its own index changes nothing |
| `PreviewGrid.RemoveFirst` | NekoPDFKit/PreviewGridView.swift:40-42 | the delete removes only the first identical image: the length drops by one and that image leaves the multiset when it is found, the images before it stay in place, every later image shifts down by one in order, and the list is unchanged when it is absent |
| `PreviewGrid.DropIdle` | NekoPDFKit/PreviewGridView.swift:65-71 | a drop with no dragged item, or onto the slot that already holds the dragged image, changes nothing |
| `PreviewGrid.DropReorders` | NekoPDFKit/PreviewGridView.swift:68-73 | any other drop keeps the length, permutes the images, puts the dragged image at the target's index, keeps the other images in relative order, and does change the list |
| `PreviewGrid.PreviewGridView.StartDrag` | NekoPDFKit/PreviewGridView.swift:33-36 | `onDrag` records the dragged item and leaves the images alone |
| `PreviewGrid.PreviewGridView.Delete` | NekoPDFKit/PreviewGridView.swift:40-42 | the context-menu delete applies `RemoveFirst` to the bound array |
| `PreviewGrid.PreviewGridView.DropEntered` | NekoPDFKit/PreviewGridView.swift:64-76 | `dropEntered` needs both images present when a different item is dragged (the lookups are force-unwrapped); it applies the drop to the bound array and keeps the dragged item |
| `PreviewGrid.StaleDrag` | NekoPDFKit/PreviewGridView.swift:34-69 | the drag state is never cleared, so after dragging an image, deleting it and entering another cell, the state lies outside what `dropEntered`'s force-unwraps need |
| `PreviewGrid.GuardedDrop` | NekoPDFKit/PreviewGridView.swift:64-76 | the drop with guarded lookups is defined in every state, equals the source's drop wherever the source does not trap, leaves the list alone otherwise, and always permutes it |
| `PreviewGrid.PreviewGridView.DropEnteredGuarded` | NekoPDFKit/PreviewGridView.swift:64-76 | `dropEntered` with `if let` lookups applies `GuardedDrop` to the bound array in every state and keeps the dragged item |

## Findings

| source | as written | input that shows it | evidently intended | confidence | as-written member | corrected member |
|---|---|---|---|---|---|---|
| NekoPDFKit/PreviewGridView.swift:34-69 | `draggedItem` is set on drag and never reset; `dropEntered` force-unwraps both `firstIndex` lookups | images `[a, b]`: drag `a`, delete `a` from the context menu, then the drag enters `b`'s cell; `firstIndex` of `a` is nil and the unwrap traps | a drop whose images are not both in the list does nothing | medium, not executed | `PreviewGrid.PreviewGridView.DropEntered` with `PreviewGrid.StaleDrag` | `PreviewGrid.PreviewGridView.DropEnteredGuarded` with `PreviewGrid.GuardedDrop` |

## Left out

- SwiftUI views and layout are presentation only and are not modelled. This
  covers AboutView, PrivacyPolicyView, ContentView, PDFPreviewView,
  MergeItemView, PDFPageView, PDFPreviewCell, ShareSheet, alerts and sheets.
- PDFKit and UIKit internals are not modelled. This covers page creation, image
  drawing, the bytes of `dataRepresentation` and `pdfData`, and PDF syntax
  (ISO 32000). Each outcome is an opaque field or a function parameter.
- The PDF document metadata (creator, author, title) is not modelled. It only
  affects the PDF bytes.
- The photo-library import (`MergeView.swift:98-107`, `ContentView.swift:66-77`)
  is not modelled. It is asynchronous `Task`/`loadTransferable` plumbing.
- `PDFState` in ContentView.swift (`ContentView.swift:11-34`) is not modelled.
  It is a `DispatchQueue.main.async` completion handler. `GeneratePdf` returns
  the completion's value instead of calling back.
- Security-scoped URL access, `resourceValues` and `FileManager` are I/O. Only
  their results are kept: the content type, the file-exists answer and the
  bytes read.
- CGFloat rounding is not modelled: the layout is exact real arithmetic.
- PdfExport.Placement: requires a positive width and height, and so do
  `PdfExport.PageFor`, `PdfExport.Render`, `PdfExport.RenderOnePagePerImage`,
  `PdfExport.RenderPages` and `PdfExport.GeneratePdf` (through `Drawable`).
  With exactly one zero dimension the source's scale for that side is an IEEE
  infinity, `min` at `PDFExportService.swift:56` picks the finite one, and a
  zero-width (or zero-height) rectangle is drawn centred on the page. With both
  dimensions zero the scale is infinite and both sizes are NaN. Neither case
  is modelled.
- `CustomPDFView.layoutSubviews` zoom is a view-side setting and is not
  modelled.
- Hash values and UUIDs are opaque inputs. This covers UIImage and PDFPage
  `hash`, the Swift hasher, and `ImageItem`'s UUIDs, which are regenerated on
  every render.
- Merge.MergeView.GenerateAndShowPdf: the model states only that
  `isGenerating` is false at the end. The `true` it holds during the call
  cannot be observed in a synchronous model.
- PdfMerge.PdfMergeView.GenerateAndShowPdf: the same holds for its
  `isGenerating`.
- The `PDFError` enum (`generationFailed`, `invalidData`) is declared but never
  used by the source, so it is not modelled.
- `autoreleasepool` and `print` logging are not modelled.
