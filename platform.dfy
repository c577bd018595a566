/** Opaque stand-ins for the UIKit and PDFKit objects the app passes around.
    The app never looks inside an image or a PDF page: it reads an image's size,
    asks the platform to turn an image into a page, asks a document for its pages
    and asks the platform to serialize a document. Every such platform answer is
    carried here as data (a field holding the answer) so that the app's own logic
    can be stated exactly without modelling PDF bytes. */
module Platform {

  datatype Option<T> = None | Some(value: T)

  datatype Result<T, E> = Success(value: T) | Failure(error: E)

  /** The bytes of a serialized PDF; their syntax is not modelled. */
  type Bytes = seq<bv8>

  /** A PDFPage object: `ref` is its object identity, `hash` its NSObject hash. */
  datatype Page = Page(ref: nat, hash: int)

  /** A UIImage object. `ref` is its identity (two values with the same `ref` are
      the same object, so Dafny `==` on images plays the role of Swift `===`),
      `hash` its NSObject hash, `width`/`height` its `size` in points, and
      `asPage` what `PDFPage(image:)` yields for it (None when it fails). */
  datatype Image = Image(ref: nat, hash: int, width: real, height: real, asPage: Option<Page>)

  /** A PDFDocument: `slots[i]` is what `page(at: i)` yields, so the
      document's `pageCount` is `|slots|`. */
  datatype Document = Document(slots: seq<Option<Page>>)
  {
    function PageCount(): nat { |slots| }

    /** `page(at: 0)?.hash ?? 0` */
    function FirstPageHash(): int
    {
      if |slots| > 0 && slots[0].Some? then slots[0].value.hash else 0
    }

    /** Every `page(at: i)` with `i < pageCount` yields a page. */
    predicate AllPagesPresent()
    {
      forall i :: 0 <= i < |slots| ==> slots[i].Some?
    }
  }

  /** The pages `page(at:)` yields for indexes `0..<pageCount`, in index order,
      skipping the indexes where it yields nil. */
  function Present(slots: seq<Option<Page>>): seq<Page>
  {
    if slots == [] then []
    else
      var last := slots[|slots| - 1];
      Present(slots[..|slots| - 1]) + (if last.Some? then [last.value] else [])
  }

  /** `Present` never invents pages: it keeps at most one page per slot. */
  lemma {:induction false} PresentBounded(slots: seq<Option<Page>>)
    ensures |Present(slots)| <= |slots|
  {
    if slots != [] {
      PresentBounded(slots[..|slots| - 1]);
    }
  }

  /** When every slot yields a page, `Present` is exactly the slots' pages in order. */
  lemma {:induction false} PresentAll(slots: seq<Option<Page>>)
    requires forall i :: 0 <= i < |slots| ==> slots[i].Some?
    ensures |Present(slots)| == |slots|
    ensures forall i :: 0 <= i < |slots| ==> Present(slots)[i] == slots[i].value
  {
    if slots != [] {
      PresentAll(slots[..|slots| - 1]);
    }
  }
}
