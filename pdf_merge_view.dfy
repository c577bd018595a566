/** PDFMergeView: a list of PDF documents, merged by concatenating all their
    pages in order. Documents come from a document picker and are removed by
    index. */
module PdfMerge {
  import opened Platform
  import Sequences
  import Merge

  /** The pages of all documents, document after document, each in page order. */
  function ConcatPages(docs: seq<Document>): seq<Page>
  {
    if docs == [] then []
    else ConcatPages(docs[..|docs| - 1]) + Present(docs[|docs| - 1].slots)
  }

  function TotalPageCount(docs: seq<Document>): nat
  {
    if docs == [] then 0 else TotalPageCount(docs[..|docs| - 1]) + docs[|docs| - 1].PageCount()
  }

  /** The merged page count never exceeds the documents' total page count,
      and equals it when `page(at:)` yields every page. */
  lemma {:induction false} ConcatPageCount(docs: seq<Document>)
    ensures |ConcatPages(docs)| <= TotalPageCount(docs)
    ensures (forall k :: 0 <= k < |docs| ==> docs[k].AllPagesPresent()) ==>
      |ConcatPages(docs)| == TotalPageCount(docs)
  {
    if docs != [] {
      var last := docs[|docs| - 1];
      ConcatPageCount(docs[..|docs| - 1]);
      PresentBounded(last.slots);
      if last.AllPagesPresent() {
        PresentAll(last.slots);
      }
    }
  }

  /** The PDF-only merge is the mixed merge of the same documents as PDF items. */
  lemma {:induction false} ConcatIsMergeOfPdfs(docs: seq<Document>)
    ensures ConcatPages(docs) == Merge.MergedPages(seq(|docs|, k requires 0 <= k < |docs| => Merge.PdfEntry(docs[k])))
  {
    var items := seq(|docs|, k requires 0 <= k < |docs| => Merge.PdfEntry(docs[k]));
    if docs != [] {
      var front := docs[..|docs| - 1];
      ConcatIsMergeOfPdfs(front);
      assert items[..|items| - 1] == seq(|front|, k requires 0 <= k < |front| => Merge.PdfEntry(front[k]));
    }
  }

  /** The nested loop of `generateAndShowPDF`: every page of every selected
      document, inserted at index `pageCount`. */
  method BuildMergedDocument(docs: seq<Document>) returns (merged: seq<Page>)
    ensures merged == ConcatPages(docs)
  {
    merged := [];
    for k := 0 to |docs|
      invariant merged == ConcatPages(docs[..k])
    {
      assert docs[..k + 1][..k] == docs[..k];
      merged := Merge.InsertPdfPages(merged, docs[k]);
      assert ConcatPages(docs[..k + 1]) == ConcatPages(docs[..k]) + Present(docs[k].slots);
    }
    assert docs[..|docs|] == docs;
  }

  /** A URL handed to the picker's delegate: whether the file exists (`fileExists(atPath:)`), and the
      bytes `Data(contentsOf:)` reads (None when it throws). */
  datatype PickedFile = PickedFile(fileExists: bool, contents: Option<Bytes>)

  /** The document one picked file adds, if any; `parse` is `PDFDocument(data:)`. */
  function LoadedDocument(file: PickedFile, parse: Bytes -> Option<Document>): Option<Document>
  {
    if file.fileExists && file.contents.Some? then parse(file.contents.value) else None
  }

  function Picked(files: seq<PickedFile>, parse: Bytes -> Option<Document>): seq<Document>
  {
    if files == [] then []
    else
      var loaded := LoadedDocument(files[|files| - 1], parse);
      Picked(files[..|files| - 1], parse) + (if loaded.Some? then [loaded.value] else [])
  }

  /** At most one document per file; when every file loads, exactly one, in
      the order the files were picked. */
  lemma {:induction false} PickedInUrlOrder(files: seq<PickedFile>, parse: Bytes -> Option<Document>)
    ensures |Picked(files, parse)| <= |files|
    ensures (forall k :: 0 <= k < |files| ==> LoadedDocument(files[k], parse).Some?) ==>
      |Picked(files, parse)| == |files|
    ensures (forall k :: 0 <= k < |files| ==> LoadedDocument(files[k], parse).Some?) ==>
      forall k :: 0 <= k < |Picked(files, parse)| ==> Picked(files, parse)[k] == LoadedDocument(files[k], parse).value
  {
    if files != [] {
      PickedInUrlOrder(files[..|files| - 1], parse);
    }
  }

  const MERGE_FAILED_MESSAGE: string := "無法生成合併的PDF"

  /** The `@State` of the PDF merge screen. */
  class PdfMergeView {
    var selectedPdfs: seq<Document>
    var showingPdfPreview: bool
    var mergedPdfData: Option<Bytes>
    var isGenerating: bool
    var errorMessage: Option<string>

    constructor ()
      ensures selectedPdfs == [] && !showingPdfPreview && mergedPdfData == None
      ensures !isGenerating && errorMessage == None
    {
      selectedPdfs := [];
      showingPdfPreview := false;
      mergedPdfData := None;
      isGenerating := false;
      errorMessage := None;
    }

    /** The context-menu delete: `selectedPdfs.remove(at: index)`. */
    method Delete(index: nat)
      requires index < |selectedPdfs|
      modifies this
      ensures selectedPdfs == Sequences.RemoveAt(old(selectedPdfs), index)
      ensures showingPdfPreview == old(showingPdfPreview) && mergedPdfData == old(mergedPdfData)
      ensures isGenerating == old(isGenerating) && errorMessage == old(errorMessage)
    {
      selectedPdfs := Sequences.RemoveAt(selectedPdfs, index);
    }

    /** The picker coordinator's `documentPicker(_:didPickDocumentsAt:)`:
        appends, in URL order, every file that exists, reads and parses;
        skips the others. */
    method DocumentPicker(files: seq<PickedFile>, parse: Bytes -> Option<Document>)
      modifies this
      ensures selectedPdfs == old(selectedPdfs) + Picked(files, parse)
      ensures showingPdfPreview == old(showingPdfPreview) && mergedPdfData == old(mergedPdfData)
      ensures isGenerating == old(isGenerating) && errorMessage == old(errorMessage)
    {
      for k := 0 to |files|
        invariant selectedPdfs == old(selectedPdfs) + Picked(files[..k], parse)
        invariant showingPdfPreview == old(showingPdfPreview) && mergedPdfData == old(mergedPdfData)
        invariant isGenerating == old(isGenerating) && errorMessage == old(errorMessage)
      {
        var file := files[k];
        assert files[..k + 1][..k] == files[..k];
        if !file.fileExists {
          continue;
        }
        if file.contents.Some? {
          var pdf := parse(file.contents.value);
          if pdf.Some? {
            selectedPdfs := selectedPdfs + [pdf.value];
          }
        }
      }
      assert files[..|files|] == files;
    }

    /** `generateAndShowPDF`: clears the error, concatenates the selected
        documents, then either stores the data and shows the preview or sets
        the error message; `isGenerating` is false at the end. */
    method GenerateAndShowPdf(dataRepresentation: seq<Page> -> Option<Bytes>)
      modifies this
      ensures selectedPdfs == old(selectedPdfs) && !isGenerating
      ensures var data := dataRepresentation(ConcatPages(old(selectedPdfs)));
        if data.Some? then
          mergedPdfData == data && showingPdfPreview && errorMessage == None
        else
          errorMessage == Some(MERGE_FAILED_MESSAGE) &&
          mergedPdfData == old(mergedPdfData) && showingPdfPreview == old(showingPdfPreview)
    {
      isGenerating := true;
      errorMessage := None;
      var mergedPdf := BuildMergedDocument(selectedPdfs);
      var data := dataRepresentation(mergedPdf);
      if data.Some? {
        mergedPdfData := data;
        showingPdfPreview := true;
      } else {
        errorMessage := Some(MERGE_FAILED_MESSAGE);
      }
      isGenerating := false;
    }
  }
}
