/** The drag-end handler of the widget canvas: a widget dragged onto
    another one moves to that one's position in the flat list, and the
    whole list is renumbered so that `orderIndex` equals the position. */
module WidgetCanvas {
  import opened Models

  /** `arrayMove(array, from, to)` of the sortable drag-and-drop library,
      which is not part of this model. This definition ASSUMES its standard
      meaning for in-range indices: copy the list, remove the element at
      `from`, insert it at `to` in what remains. */
  function ArrayMove<T>(s: seq<T>, from: nat, to: nat): (r: seq<T>)
    requires from < |s| && to < |s|
  {
    var rest := s[..from] + s[from + 1..];
    rest[..to] + [s[from]] + rest[to..]
  }

  /** Where the element at position `k` of `ArrayMove(s, from, to)` came
      from: the moved element lands at `to`, the elements between the two
      positions shift by one towards `from`, all others stay put. */
  function MovedFrom(from: nat, to: nat, k: nat): (r: nat)
  {
    if k == to then from
    else if from < to && from <= k < to then k + 1
    else if to < from && to < k <= from then k - 1
    else k
  }

  lemma ArrayMoveAt<T>(s: seq<T>, from: nat, to: nat, k: nat)
    requires from < |s| && to < |s| && k < |s|
    ensures |ArrayMove(s, from, to)| == |s|
    ensures MovedFrom(from, to, k) < |s|
    ensures ArrayMove(s, from, to)[k] == s[MovedFrom(from, to, k)]
  {
    var rest := s[..from] + s[from + 1..];
    assert |rest| == |s| - 1;
    assert forall j :: 0 <= j < |rest| ==> rest[j] == if j < from then s[j] else s[j + 1];
  }

  /** The moved list is a permutation of the original. */
  lemma ArrayMovePermutes<T>(s: seq<T>, from: nat, to: nat)
    requires from < |s| && to < |s|
    ensures multiset(ArrayMove(s, from, to)) == multiset(s)
  {
    var rest := s[..from] + s[from + 1..];
    calc {
      multiset(ArrayMove(s, from, to));
      multiset(rest[..to]) + multiset([s[from]]) + multiset(rest[to..]);
      { assert rest == rest[..to] + rest[to..]; }
      multiset(rest) + multiset([s[from]]);
      multiset(s[..from]) + multiset(s[from + 1..]) + multiset([s[from]]);
      { assert s == s[..from] + [s[from]] + s[from + 1..]; }
      multiset(s);
    }
  }

  /** The list with every widget's `orderIndex` set to its position. */
  function Renumber(ws: seq<Widget>): (r: seq<Widget>)
    ensures |r| == |ws|
    ensures forall i :: 0 <= i < |r| ==> r[i].orderIndex == i
    ensures forall i :: 0 <= i < |r| ==> Unordered(r[i]) == Unordered(ws[i])
  {
    seq(|ws|, i requires 0 <= i < |ws| => ws[i].(orderIndex := i))
  }

  /** A widget with its position forgotten: two widgets that agree here
      differ at most in `orderIndex`. */
  function Unordered(w: Widget): (r: Widget)
  {
    w.(orderIndex := 0)
  }

  /** What a drag end hands to the parent's `onReorder`: nothing, or the
      reordered and renumbered list. */
  datatype DragOutcome = Unchanged | Reordered(widgets: seq<Widget>)

  /** The canvas' `onDragEnd` handler. `overId` is `None` when the widget
      was dropped outside any sortable item. */
  function OnDragEnd(widgets: seq<Widget>, activeId: string, overId: Option<string>): (r: DragOutcome)
    ensures (overId == None || overId == Some(activeId)) ==> r == Unchanged
    ensures overId.Some? && (FindIndex(widgets, activeId) == -1 || FindIndex(widgets, overId.value) == -1)
            ==> r == Unchanged
    ensures r.Reordered? ==>
              overId.Some? && overId.value != activeId &&
              0 <= FindIndex(widgets, activeId) && 0 <= FindIndex(widgets, overId.value) &&
              r.widgets == Renumber(ArrayMove(widgets, FindIndex(widgets, activeId), FindIndex(widgets, overId.value)))
  {
    if overId.None? || activeId == overId.value then Unchanged
    else
      var oldIndex := FindIndex(widgets, activeId);
      var newIndex := FindIndex(widgets, overId.value);
      if oldIndex != -1 && newIndex != -1 then
        Reordered(Renumber(ArrayMove(widgets, oldIndex, newIndex)))
      else Unchanged
  }

  /** A drop onto another widget of the list always reorders. */
  lemma DropOnOtherReorders(widgets: seq<Widget>, activeId: string, overId: string)
    requires activeId != overId
    requires exists k :: 0 <= k < |widgets| && widgets[k].id == activeId
    requires exists k :: 0 <= k < |widgets| && widgets[k].id == overId
    ensures OnDragEnd(widgets, activeId, Some(overId)).Reordered?
  {
  }

  /** After a reorder the list has the same length and the same widgets
      (by id, and up to their positions), and the order indices are
      exactly 0..n-1 whatever they were before. */
  lemma {:induction false} ReorderPermutesAndRenumbers(widgets: seq<Widget>, activeId: string, overId: Option<string>)
    requires OnDragEnd(widgets, activeId, overId).Reordered?
    ensures var r := OnDragEnd(widgets, activeId, overId).widgets;
            |r| == |widgets| &&
            multiset(Ids(r)) == multiset(Ids(widgets)) &&
            (forall i :: 0 <= i < |r| ==> r[i].orderIndex == i)
  {
    var from, to := FindIndex(widgets, activeId), FindIndex(widgets, overId.value);
    var moved := ArrayMove(widgets, from, to);
    var r := Renumber(moved);
    assert Ids(r) == Ids(moved);
    assert Ids(moved) == ArrayMove(Ids(widgets), from, to) by {
      forall k | 0 <= k < |widgets|
        ensures Ids(moved)[k] == ArrayMove(Ids(widgets), from, to)[k]
      {
        ArrayMoveAt(widgets, from, to, k);
        ArrayMoveAt(Ids(widgets), from, to, k);
      }
    }
    ArrayMovePermutes(Ids(widgets), from, to);
  }

  /** Which widget lands where: the dragged widget takes the position the
      target occupied, the widgets in between shift by one, every other
      widget keeps its position, and only `orderIndex` differs from the
      widget it came from (in particular `parentId` is ignored). */
  lemma ReorderPlacement(widgets: seq<Widget>, activeId: string, overId: Option<string>, k: nat)
    requires OnDragEnd(widgets, activeId, overId).Reordered?
    requires k < |widgets|
    ensures var r := OnDragEnd(widgets, activeId, overId).widgets;
            var from, to := FindIndex(widgets, activeId), FindIndex(widgets, overId.value);
            0 <= from && 0 <= to && |r| == |widgets| &&
            MovedFrom(from, to, k) < |widgets| &&
            Unordered(r[k]) == Unordered(widgets[MovedFrom(from, to, k)]) &&
            r[k].orderIndex == k &&
            (k == to ==> r[k].id == activeId)
  {
    var from, to := FindIndex(widgets, activeId), FindIndex(widgets, overId.value);
    ArrayMoveAt(widgets, from, to, k);
  }

  /** [A, B, C] with C dropped on A gives [C(0), A(1), B(2)]. */
  lemma DropLastOnFirst(a: Widget, b: Widget, c: Widget)
    requires a.id != b.id && b.id != c.id && a.id != c.id
    ensures OnDragEnd([a, b, c], c.id, Some(a.id)) ==
            Reordered([c.(orderIndex := 0), a.(orderIndex := 1), b.(orderIndex := 2)])
  {
    assert FindIndex([a, b, c], c.id) == 2;
    assert FindIndex([a, b, c], a.id) == 0;
    assert ArrayMove([a, b, c], 2, 0) == [c, a, b];
  }
}
