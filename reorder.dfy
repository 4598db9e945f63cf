/**
 * The list move every drag-and-drop reorder performs (`item = xs.pop(i)` then
 * `xs.insert(j, item)`), and the clamped one-slot target the review panel's
 * sections compute from a vertical drag.
 */
module Reorder {

  /** list.pop(i): the list without its i-th element. */
  function Remove<T>(s: seq<T>, i: nat): (r: seq<T>)
    requires i < |s|
    ensures |r| == |s| - 1
  {
    s[..i] + s[i + 1..]
  }

  /** list.insert(i, x) for an index within the list (0 <= i <= len). */
  function Insert<T>(s: seq<T>, i: nat, x: T): (r: seq<T>)
    requires i <= |s|
    ensures |r| == |s| + 1
  {
    s[..i] + [x] + s[i..]
  }

  /** Pop the element at `from` and insert it at `to`. */
  function Move<T>(s: seq<T>, from: nat, to: nat): seq<T>
    requires from < |s| && to < |s|
  {
    Insert(Remove(s, from), to, s[from])
  }

  lemma RemovePerm<T>(s: seq<T>, i: nat)
    requires i < |s|
    ensures multiset(Remove(s, i)) + multiset{s[i]} == multiset(s)
  {
    assert s == s[..i] + [s[i]] + s[i + 1..];
  }

  lemma InsertPerm<T>(s: seq<T>, i: nat, x: T)
    requires i <= |s|
    ensures multiset(Insert(s, i, x)) == multiset(s) + multiset{x}
  {
    assert s == s[..i] + s[i..];
  }

  /** Inserting what was just popped, at the same place, gives the list back. */
  lemma InsertRemove<T>(s: seq<T>, i: nat)
    requires i < |s|
    ensures Insert(Remove(s, i), i, s[i]) == s
  {
    var t := Remove(s, i);
    assert t[..i] == s[..i] && t[i..] == s[i + 1..];
  }

  /** Popping what was just inserted gives the list back. */
  lemma RemoveInsert<T>(s: seq<T>, i: nat, x: T)
    requires i <= |s|
    ensures Remove(Insert(s, i, x), i) == s
  {
    var t := Insert(s, i, x);
    assert t[..i] == s[..i] && t[i + 1..] == s[i..];
  }

  /**
   * A move keeps the length and the multiset of elements, puts the moved
   * element at the target, leaves the others in their relative order, is
   * undone by the opposite move, and is the identity when both indices agree.
   */
  lemma MoveSpec<T>(s: seq<T>, from: nat, to: nat)
    requires from < |s| && to < |s|
    ensures |Move(s, from, to)| == |s|
    ensures Move(s, from, to)[to] == s[from]
    ensures Remove(Move(s, from, to), to) == Remove(s, from)
    ensures multiset(Move(s, from, to)) == multiset(s)
    ensures Move(Move(s, from, to), to, from) == s
    ensures from == to ==> Move(s, from, to) == s
  {
    var t := Remove(s, from);
    RemoveInsert(t, to, s[from]);
    RemovePerm(s, from);
    InsertPerm(t, to, s[from]);
    InsertRemove(s, from);
  }

  /** Where each element of a move comes from: a block between the two indices shifts by one. */
  lemma MoveAt<T>(s: seq<T>, from: nat, to: nat, i: nat)
    requires from < |s| && to < |s| && i < |s|
    ensures Move(s, from, to)[i] ==
      if i == to then s[from]
      else if from < to && from <= i < to then s[i + 1]
      else if to < from && to < i <= from then s[i - 1]
      else s[i]
  {
  }

  /** Python's abs(dy) > threshold: the drag went far enough to count. */
  predicate FarEnough(dy: int, threshold: int)
  {
    (if dy < 0 then -dy else dy) > threshold
  }

  /** max(0, min(n - 1, index + direction)), the direction being +1 for a downward drag and -1 otherwise. */
  function StepTarget(index: int, n: int, dy: int): int
  {
    var direction := if dy > 0 then 1 else -1;
    var capped := if n - 1 < index + direction then n - 1 else index + direction;
    if capped < 0 then 0 else capped
  }

  /**
   * From an index within the list, the target is within the list and is the
   * neighbour in the drag direction, or the index itself when that neighbour
   * would fall off the end.
   */
  lemma StepTargetSpec(index: int, n: int, dy: int)
    requires 0 <= index < n
    ensures 0 <= StepTarget(index, n, dy) < n
    ensures StepTarget(index, n, dy) == index + 1 <==> dy > 0 && index + 1 < n
    ensures StepTarget(index, n, dy) == index - 1 <==> dy <= 0 && index > 0
    ensures StepTarget(index, n, dy) == index <==> (dy > 0 && index == n - 1) || (dy <= 0 && index == 0)
  {
  }
}
