/** PreviewGridView: the grid of picked images, reordered by drag and drop and
    pruned from a context menu. Images are compared by object identity (`===`),
    which on these values is `==`. */
module PreviewGrid {
  import opened Platform
  import opened Sequences

  /** `struct ImageItem: Identifiable`: a wrapper with a UUID. The grid builds
      fresh wrappers on every render, so `id` says little about the image. */
  datatype ImageItem = ImageItem(id: nat, image: Image)

  /** The context-menu delete: removes the first element identical to `image`,
      if there is one. */
  function RemoveFirst(images: seq<Image>, image: Image): (r: seq<Image>)
    ensures image !in images ==> r == images
    ensures image in images ==> |r| == |images| - 1 && multiset(r) + multiset{image} == multiset(images)
    ensures image in images ==> forall j :: 0 <= j < FirstIndex(images, image).value ==> r[j] == images[j]
    ensures image in images ==> forall j :: FirstIndex(images, image).value <= j < |r| ==> r[j] == images[j + 1]
  {
    match FirstIndex(images, image)
    case None => images
    case Some(index) => RemoveAt(images, index)
  }

  /** What `dropEntered` needs: when a different item is dragged over `target`,
      both images are in the list (the source force-unwraps both lookups). */
  predicate DropDefined(images: seq<Image>, dragged: Option<ImageItem>, target: ImageItem)
  {
    dragged.Some? && dragged.value.id != target.id ==> dragged.value.image in images && target.image in images
  }

  /** Whether `dropEntered` moves anything: a different item is being dragged
      and the target slot does not already hold the dragged image. */
  predicate DropMoves(images: seq<Image>, dragged: Option<ImageItem>, target: ImageItem)
  {
    dragged.Some? && dragged.value.id != target.id && target.image != dragged.value.image
  }

  /** The list after `dropEntered`: the dragged image is removed from its
      first index and inserted at the target image's first index. */
  function Dropped(images: seq<Image>, dragged: Option<ImageItem>, target: ImageItem): seq<Image>
    requires DropDefined(images, dragged, target)
  {
    if DropMoves(images, dragged, target) then
      Move(images, FirstIndex(images, dragged.value.image).value, FirstIndex(images, target.image).value)
    else images
  }

  /** `draggedItem` is set by `onDrag` and never cleared, so `DropDefined` can
      fail in a state the grid reaches: drag `a`, delete `a` from the context
      menu, then let the drag enter `b`'s cell. The force-unwrapped lookup of
      `a` finds nothing. */
  lemma StaleDrag(a: Image, b: Image)
    requires a != b
    ensures var images := RemoveFirst([a, b], a);
      images == [b] && !DropDefined(images, Some(ImageItem(0, a)), ImageItem(1, b))
  {
    assert FirstIndex([a, b], a) == Some(0);
    assert RemoveAt([a, b], 0) == [b];
  }

  /** `dropEntered` with both lookups guarded (`if let` instead of `!`): the
      drop is defined in every state, agrees with `Dropped` wherever that is
      defined, leaves the list alone otherwise, and always permutes it. */
  function GuardedDrop(images: seq<Image>, dragged: Option<ImageItem>, target: ImageItem): (r: seq<Image>)
    ensures DropDefined(images, dragged, target) ==> r == Dropped(images, dragged, target)
    ensures !DropDefined(images, dragged, target) ==> r == images
    ensures |r| == |images| && multiset(r) == multiset(images)
  {
    if DropMoves(images, dragged, target) && dragged.value.image in images && target.image in images then
      Move(images, FirstIndex(images, dragged.value.image).value, FirstIndex(images, target.image).value)
    else images
  }

  /** With nothing dragged, or the target slot holding the dragged image
      already, a drop changes nothing. */
  lemma DropIdle(images: seq<Image>, dragged: Option<ImageItem>, target: ImageItem)
    requires DropDefined(images, dragged, target)
    requires dragged.None? || dragged.value.image == target.image
    ensures Dropped(images, dragged, target) == images
  {
  }

  /** Otherwise the result is a permutation of the list with the same length,
      the dragged image sits at the target's index, and all other images keep
      their relative order. */
  lemma DropReorders(images: seq<Image>, dragged: Option<ImageItem>, target: ImageItem)
    requires DropDefined(images, dragged, target)
    requires DropMoves(images, dragged, target)
    ensures var r := Dropped(images, dragged, target);
      var from := FirstIndex(images, dragged.value.image).value;
      var to := FirstIndex(images, target.image).value;
      && |r| == |images|
      && multiset(r) == multiset(images)
      && r[to] == dragged.value.image
      && RemoveAt(r, to) == RemoveAt(images, from)
      && r != images
  {
    var from := FirstIndex(images, dragged.value.image).value;
    var to := FirstIndex(images, target.image).value;
    MoveKeepsOthersInOrder(images, from, to);
    var r := Dropped(images, dragged, target);
    assert r[to] != images[to];
  }

  /** The grid's bound `images` array and its `draggedItem` state. */
  class PreviewGridView {
    var images: seq<Image>
    var draggedItem: Option<ImageItem>

    constructor (images: seq<Image>)
      ensures this.images == images && draggedItem == None
    {
      this.images := images;
      draggedItem := None;
    }

    /** `onDrag`: remembers the item being dragged. */
    method StartDrag(item: ImageItem)
      modifies this
      ensures draggedItem == Some(item) && images == old(images)
    {
      draggedItem := Some(item);
    }

    /** The context-menu delete of `item`'s image. */
    method Delete(item: ImageItem)
      modifies this
      ensures images == RemoveFirst(old(images), item.image)
      ensures draggedItem == old(draggedItem)
    {
      var index := FirstIndex(images, item.image);
      if index.Some? {
        images := RemoveAt(images, index.value);
      }
    }

    /** `DropViewDelegate.dropEntered` for the cell showing `target`. */
    method DropEntered(target: ImageItem)
      requires DropDefined(images, draggedItem, target)
      modifies this
      ensures images == Dropped(old(images), old(draggedItem), target)
      ensures draggedItem == old(draggedItem)
    {
      if draggedItem.None? {
        return;
      }
      var dragged := draggedItem.value;
      if dragged.id != target.id {
        var from := FirstIndex(images, dragged.image).value;
        var to := FirstIndex(images, target.image).value;
        if images[to] != dragged.image {
          var item := images[from];
          images := RemoveAt(images, from);
          images := InsertAt(images, item, to);
        }
      }
    }

    /** `dropEntered` with its two lookups guarded, callable in every state. */
    method DropEnteredGuarded(target: ImageItem)
      modifies this
      ensures images == GuardedDrop(old(images), old(draggedItem), target)
      ensures draggedItem == old(draggedItem)
    {
      if draggedItem.None? {
        return;
      }
      var dragged := draggedItem.value;
      if dragged.id != target.id {
        var from := FirstIndex(images, dragged.image);
        var to := FirstIndex(images, target.image);
        if from.Some? && to.Some? && images[to.value] != dragged.image {
          var item := images[from.value];
          images := RemoveAt(images, from.value);
          images := InsertAt(images, item, to.value);
        }
      }
    }
  }
}
