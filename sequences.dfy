/** The Swift `Array` edits the app's lists go through: `remove(at:)`,
    `insert(_:at:)`, `firstIndex(where:)` with an identity test, and the
    remove-then-insert move used by drag and drop. Each one is a value-level
    function; the screens that own the arrays reassign their fields with them. */
module Sequences {
  import opened Platform

  /** `firstIndex(where: { $0 == x })`: the least index holding `x`, or None. */
  function FirstIndex<T(==)>(s: seq<T>, x: T): (r: Option<nat>)
    ensures r.Some? ==> r.value < |s| && s[r.value] == x
    ensures r.Some? ==> forall j :: 0 <= j < r.value ==> s[j] != x
    ensures r.None? <==> x !in s
  {
    if s == [] then None
    else if s[0] == x then Some(0)
    else
      var rest := FirstIndex(s[1..], x);
      assert x in s ==> x in s[1..] by {
        if x in s {
          var k :| 0 <= k < |s| && s[k] == x;
          assert s[1..][k - 1] == x;
        }
      }
      if rest.Some? then Some(rest.value + 1) else None
  }

  /** `remove(at: i)`: the element at `i` is gone, the ones before keep their
      indexes and the ones after shift down by one. */
  function RemoveAt<T>(s: seq<T>, i: nat): (r: seq<T>)
    requires i < |s|
    ensures |r| == |s| - 1
    ensures forall j :: 0 <= j < i ==> r[j] == s[j]
    ensures forall j :: i <= j < |r| ==> r[j] == s[j + 1]
    ensures multiset(r) + multiset{s[i]} == multiset(s)
  {
    assert s == s[..i] + [s[i]] + s[i + 1..];
    s[..i] + s[i + 1..]
  }

  /** `insert(x, at: i)`: `x` lands at `i`, the elements before keep their
      indexes and the ones from `i` on shift up by one. */
  function InsertAt<T>(s: seq<T>, x: T, i: nat): (r: seq<T>)
    requires i <= |s|
    ensures |r| == |s| + 1
    ensures r[i] == x
    ensures forall j :: 0 <= j < i ==> r[j] == s[j]
    ensures forall j :: i < j < |r| ==> r[j] == s[j - 1]
    ensures multiset(r) == multiset(s) + multiset{x}
  {
    assert s == s[..i] + s[i..];
    s[..i] + [x] + s[i..]
  }

  /** Inserting at index `|s|` (the `pageCount` of the document being built)
      is an append: everything inserted before stays where it was. */
  lemma InsertAtEndAppends<T>(s: seq<T>, x: T)
    ensures InsertAt(s, x, |s|) == s + [x]
  {
  }

  /** `remove(at: i)` undoes `insert(x, at: i)`. */
  lemma RemoveUndoesInsert<T>(s: seq<T>, x: T, i: nat)
    requires i <= |s|
    ensures RemoveAt(InsertAt(s, x, i), i) == s
  {
    var r := RemoveAt(InsertAt(s, x, i), i);
    assert forall j :: 0 <= j < |s| ==> r[j] == s[j];
  }

  /** `let x = s.remove(at: from); s.insert(x, at: to)`. */
  function Move<T>(s: seq<T>, from: nat, to: nat): (r: seq<T>)
    requires from < |s| && to < |s|
    ensures |r| == |s|
    ensures r[to] == s[from]
    ensures multiset(r) == multiset(s)
  {
    InsertAt(RemoveAt(s, from), s[from], to)
  }

  /** The elements other than the moved one keep their relative order:
      deleting the moved element from the result, at its new index, gives the
      same list as deleting it from the input at its old index. */
  lemma MoveKeepsOthersInOrder<T>(s: seq<T>, from: nat, to: nat)
    requires from < |s| && to < |s|
    ensures RemoveAt(Move(s, from, to), to) == RemoveAt(s, from)
  {
    RemoveUndoesInsert(RemoveAt(s, from), s[from], to);
  }

  /** Moving an element onto its own index changes nothing. */
  lemma MoveInPlace<T>(s: seq<T>, i: nat)
    requires i < |s|
    ensures Move(s, i, i) == s
  {
    var r := Move(s, i, i);
    assert forall j :: 0 <= j < |s| ==> r[j] == s[j];
  }
}
