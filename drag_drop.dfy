/**
 * The two reusable drag-and-drop widgets: a listbox whose rows are dragged
 * onto another row, and a frame of item widgets found by the cursor's
 * vertical position. Only the item lists and the drag state are modelled;
 * the cursor geometry is given as the row index or the widgets' spans.
 */
module DragDrop {
  import opened Wrappers
  import opened Reorder

  /** What a listbox drag end does to the items, given the recorded start row and the drop row. */
  function ListboxDrop<T>(items: seq<T>, start: Option<int>, drop: int): seq<T>
    requires start.Some? && 0 <= drop < |items| ==> 0 <= start.value < |items|
  {
    if start.Some? && 0 <= drop < |items| && drop != start.value then Move(items, start.value, drop)
    else items
  }

  /**
   * A drop on a different row within the list moves the dragged item there
   * and keeps the items a permutation; any other drop changes nothing.
   */
  lemma ListboxDropSpec<T>(items: seq<T>, start: Option<int>, drop: int)
    requires start.Some? && 0 <= drop < |items| ==> 0 <= start.value < |items|
    ensures var r := ListboxDrop(items, start, drop);
      && |r| == |items| && multiset(r) == multiset(items)
      && (start.Some? && 0 <= drop < |items| && drop != start.value ==>
            r[drop] == items[start.value] && Remove(r, drop) == Remove(items, start.value))
      && (start.None? || drop < 0 || drop >= |items| || drop == start.value ==> r == items)
  {
    if start.Some? && 0 <= drop < |items| && drop != start.value {
      MoveSpec(items, start.value, drop);
    }
  }

  class DragDropListbox<T> {
    var items: seq<T>
    var dragStartIndex: Option<int>

    /** A recorded start row names a row of a non-empty list. */
    predicate Valid()
      reads this
    {
      dragStartIndex.Some? && |items| > 0 ==> 0 <= dragStartIndex.value < |items|
    }

    /** Keeps its own copy of the items; no drag is in progress. */
    constructor (initial: seq<T>)
      ensures items == initial && dragStartIndex == None && Valid()
    {
      items := initial;
      dragStartIndex := None;
    }

    /** _on_drag_start: records the row nearest the cursor (a row of the list whenever it has one). */
    method OnDragStart(nearest: int)
      requires |items| > 0 ==> 0 <= nearest < |items|
      modifies this`dragStartIndex
      ensures dragStartIndex == Some(nearest) && Valid()
    {
      dragStartIndex := Some(nearest);
    }

    /** _on_drag_end: reorders when the drop row is another row of the list; the start row is always forgotten. */
    method OnDragEnd(nearest: int) returns (reordered: bool)
      requires Valid()
      modifies this`items, this`dragStartIndex
      ensures items == ListboxDrop(old(items), old(dragStartIndex), nearest)
      ensures reordered <==> old(dragStartIndex).Some? && 0 <= nearest < |old(items)| && nearest != old(dragStartIndex).value
      ensures dragStartIndex == None && Valid()
    {
      reordered := false;
      if dragStartIndex.Some? {
        var dropIndex := nearest;
        if 0 <= dropIndex < |items| && dropIndex != dragStartIndex.value {
          var item := items[dragStartIndex.value];
          items := Remove(items, dragStartIndex.value);
          items := Insert(items, dropIndex, item);
          reordered := true;
        }
      }
      dragStartIndex := None;
    }

    /** get_items: a copy of the current order. */
    method GetItems() returns (r: seq<T>)
      ensures r == items
    {
      r := items;
    }

    /**
     * update_items: replaces the items by a copy of the given list. The drag
     * state is left as it was, so the widget stays valid when no drag is recorded.
     */
    method UpdateItems(newItems: seq<T>)
      modifies this`items
      ensures items == newItems && dragStartIndex == old(dragStartIndex)
      ensures old(dragStartIndex).None? ==> Valid()
    {
      items := newItems;
    }
  }

  // ---------------------------------------------------------------- frame

  /** A widget's vertical extent on the screen: its top (winfo_rooty) and its height. */
  datatype Span = Span(top: int, height: int)

  predicate Covers(sp: Span, y: int)
  {
    sp.top <= y <= sp.top + sp.height
  }

  /** The first widget from index i on, other than the dragged one, whose span contains y. */
  function FirstHit(spans: seq<Span>, skip: int, y: int, i: nat): (r: Option<nat>)
    requires i <= |spans|
    ensures r.Some? ==> i <= r.value < |spans| && r.value != skip
    decreases |spans| - i
  {
    if i == |spans| then None
    else if i != skip && Covers(spans[i], y) then Some(i)
    else FirstHit(spans, skip, y, i + 1)
  }

  /** The drop target is a covering widget other than the dragged one, and no earlier one covers y. */
  lemma {:induction false} FirstHitSpec(spans: seq<Span>, skip: int, y: int, i: nat)
    requires i <= |spans|
    ensures var r := FirstHit(spans, skip, y, i);
      && (r.Some? ==> i <= r.value < |spans| && r.value != skip && Covers(spans[r.value], y))
      && (r.Some? ==> forall j :: i <= j < r.value && j != skip ==> !Covers(spans[j], y))
      && (r.None? ==> forall j :: i <= j < |spans| && j != skip ==> !Covers(spans[j], y))
    decreases |spans| - i
  {
    if i < |spans| && !(i != skip && Covers(spans[i], y)) {
      FirstHitSpec(spans, skip, y, i + 1);
    }
  }

  /** What a frame drag end does to the items, given the dragged index and the widgets' spans. */
  function FrameDrop<T>(items: seq<T>, dragged: Option<int>, spans: seq<Span>, y: int): seq<T>
    requires |spans| == |items|
    requires dragged.Some? ==> 0 <= dragged.value < |items|
  {
    if dragged.None? then items
    else
      match FirstHit(spans, dragged.value, y, 0)
      case Some(t) => if t != dragged.value then Move(items, dragged.value, t) else items
      case None => items
  }

  /**
   * With a drag in progress, a cursor over another widget moves the dragged
   * item to that widget's index (the first such widget), keeping a
   * permutation; otherwise nothing changes.
   */
  lemma FrameDropSpec<T>(items: seq<T>, dragged: Option<int>, spans: seq<Span>, y: int)
    requires |spans| == |items|
    requires dragged.Some? ==> 0 <= dragged.value < |items|
    ensures var r := FrameDrop(items, dragged, spans, y);
      && |r| == |items| && multiset(r) == multiset(items)
      && (dragged.Some? && FirstHit(spans, dragged.value, y, 0).Some? ==>
            var t := FirstHit(spans, dragged.value, y, 0).value;
            t != dragged.value && Covers(spans[t], y) && r[t] == items[dragged.value]
            && Remove(r, t) == Remove(items, dragged.value))
      && (dragged.None? || (forall j :: 0 <= j < |spans| && j != dragged.value ==> !Covers(spans[j], y)) ==> r == items)
  {
    if dragged.Some? {
      FirstHitSpec(spans, dragged.value, y, 0);
      var h := FirstHit(spans, dragged.value, y, 0);
      if h.Some? {
        MoveSpec(items, dragged.value, h.value);
      }
    }
  }

  class DragDropFrame<T> {
    var items: seq<T>
    var dragStartY: Option<int>
    var dragItemIndex: Option<int>

    /** A recorded dragged index names one of the items (one widget is built per item). */
    predicate Valid()
      reads this
    {
      dragItemIndex.Some? ==> 0 <= dragItemIndex.value < |items|
    }

    constructor (initial: seq<T>)
      ensures items == initial && dragStartY == None && dragItemIndex == None && Valid()
    {
      items := initial;
      dragStartY := None;
      dragItemIndex := None;
    }

    /** _on_drag_start on the widget of item `index`. */
    method OnDragStart(yRoot: int, index: int)
      requires 0 <= index < |items|
      modifies this`dragStartY, this`dragItemIndex
      ensures dragStartY == Some(yRoot) && dragItemIndex == Some(index) && Valid()
    {
      dragStartY := Some(yRoot);
      dragItemIndex := Some(index);
    }

    /** The target search of _on_drag_end: the loop over the widgets that skips the dragged one and stops at the first hit. */
    static method FindTarget(spans: seq<Span>, dragged: int, y: int) returns (target: Option<nat>)
      ensures target == FirstHit(spans, dragged, y, 0)
    {
      target := None;
      var i := 0;
      while i < |spans|
        invariant 0 <= i <= |spans|
        invariant FirstHit(spans, dragged, y, 0) == FirstHit(spans, dragged, y, i)
      {
        if i != dragged && Covers(spans[i], y) {
          target := Some(i);
          return;
        }
        i := i + 1;
      }
    }

    /** _on_drag_end, given the drop cursor position and the spans of the item widgets; the drag state is always reset. */
    method OnDragEnd(yRoot: int, spans: seq<Span>) returns (reordered: bool)
      requires Valid() && |spans| == |items|
      modifies this`items, this`dragStartY, this`dragItemIndex
      ensures items == FrameDrop(old(items), old(dragItemIndex), spans, yRoot)
      ensures reordered <==> old(dragItemIndex).Some? && FirstHit(spans, old(dragItemIndex).value, yRoot, 0).Some?
      ensures dragStartY == None && dragItemIndex == None && Valid()
    {
      reordered := false;
      if dragItemIndex.Some? {
        var target := FindTarget(spans, dragItemIndex.value, yRoot);
        FirstHitSpec(spans, dragItemIndex.value, yRoot, 0);
        if target.Some? && target.value != dragItemIndex.value {
          var item := items[dragItemIndex.value];
          items := Remove(items, dragItemIndex.value);
          items := Insert(items, target.value, item);
          reordered := true;
        }
      }
      dragStartY := None;
      dragItemIndex := None;
    }

    method GetItems() returns (r: seq<T>)
      ensures r == items
    {
      r := items;
    }

    /** update_items: replaces the items and rebuilds the widgets; the drag state is left as it was. */
    method UpdateItems(newItems: seq<T>)
      modifies this`items
      ensures items == newItems && dragStartY == old(dragStartY) && dragItemIndex == old(dragItemIndex)
      ensures old(dragItemIndex).None? ==> Valid()
    {
      items := newItems;
    }
  }
}
