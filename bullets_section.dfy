/**
 * The review panel's bullet list: each role's ordered bullets can be dragged
 * one slot up or down once the cursor has moved more than 30 pixels.
 */
module BulletsSection {
  import opened Wrappers
  import opened Assoc
  import opened Records
  import opened Reorder
  import Application

  /** Minimum vertical distance for a bullet drag to count. */
  const BulletThreshold := 30

  /** What _start_bullet_drag records. */
  datatype BulletDrag = BulletDrag(role: string, index: int, startY: int)

  /** The drag end can run without a KeyError or an IndexError: the role exists and the popped index is in range. */
  predicate CanDrop(ordered: Dict<string, seq<Rec>>, drag: Option<BulletDrag>, yRoot: int, role: string, index: int)
  {
    drag.Some? && FarEnough(yRoot - drag.value.startY, BulletThreshold) ==>
      && HasKey(ordered, role) && 0 <= index
      && (StepTarget(index, |GetOr(ordered, role, [])|, yRoot - drag.value.startY) != index ==> index < |GetOr(ordered, role, [])|)
  }

  /** A long enough drag whose one-slot step lands on another index: the case that moves a bullet and calls on_reorder. */
  predicate BulletMoves(ordered: Dict<string, seq<Rec>>, drag: Option<BulletDrag>, yRoot: int, role: string, index: int)
  {
    && drag.Some? && FarEnough(yRoot - drag.value.startY, BulletThreshold)
    && StepTarget(index, |GetOr(ordered, role, [])|, yRoot - drag.value.startY) != index
  }

  /** What _end_bullet_drag does to the ordered bullets. */
  function BulletDrop(ordered: Dict<string, seq<Rec>>, drag: Option<BulletDrag>, yRoot: int, role: string, index: int): Dict<string, seq<Rec>>
    requires CanDrop(ordered, drag, yRoot, role, index)
  {
    if drag.None? || !FarEnough(yRoot - drag.value.startY, BulletThreshold) then ordered
    else
      var bullets := GetOr(ordered, role, []);
      var target := StepTarget(index, |bullets|, yRoot - drag.value.startY);
      if target == index then ordered
      else
        StepTargetSpec(index, |bullets|, yRoot - drag.value.startY);
        Put(ordered, role, Move(bullets, index, target))
  }

  /**
   * Only the dragged role's list can change, and only by moving the bullet
   * at `index` one slot in the drag direction: the list keeps its length and
   * its bullets, the other bullets keep their relative order, and the roles
   * keep their order. A short drag, or none recorded, changes nothing.
   */
  lemma BulletDropSpec(ordered: Dict<string, seq<Rec>>, drag: Option<BulletDrag>, yRoot: int, role: string, index: int)
    requires CanDrop(ordered, drag, yRoot, role, index)
    ensures var r := BulletDrop(ordered, drag, yRoot, role, index);
      && Keys(r) == Keys(ordered)
      && (forall other :: other != role ==> Get(r, other) == Get(ordered, other))
      && (drag.None? || !FarEnough(yRoot - drag.value.startY, BulletThreshold) ==> r == ordered)
  {
    var r := BulletDrop(ordered, drag, yRoot, role, index);
    if r != ordered {
      var bullets := GetOr(ordered, role, []);
      var dy := yRoot - drag.value.startY;
      PutSpec(ordered, role, Move(bullets, index, StepTarget(index, |bullets|, dy)));
    }
  }

  /** The dragged role's list after a long enough drag: the bullet sits one slot further in the drag direction. */
  lemma BulletDropMoved(ordered: Dict<string, seq<Rec>>, drag: Option<BulletDrag>, yRoot: int, role: string, index: int)
    requires CanDrop(ordered, drag, yRoot, role, index)
    requires drag.Some? && FarEnough(yRoot - drag.value.startY, BulletThreshold)
    requires 0 <= index < |GetOr(ordered, role, [])|
    ensures var before := GetOr(ordered, role, []);
      var after := GetOr(BulletDrop(ordered, drag, yRoot, role, index), role, []);
      var target := StepTarget(index, |before|, yRoot - drag.value.startY);
      && |after| == |before| && multiset(after) == multiset(before)
      && 0 <= target < |before|
      && after[target] == before[index]
      && Remove(after, target) == Remove(before, index)
      && (target == index ==> after == before)
  {
    var before := GetOr(ordered, role, []);
    var dy := yRoot - drag.value.startY;
    var target := StepTarget(index, |before|, dy);
    StepTargetSpec(index, |before|, dy);
    DroppedList(ordered, drag, yRoot, role, index);
    if target != index {
      MoveSpec(before, index, target);
    }
  }

  /** The dragged role's list after a long enough drag, stated as a move. */
  lemma DroppedList(ordered: Dict<string, seq<Rec>>, drag: Option<BulletDrag>, yRoot: int, role: string, index: int)
    requires CanDrop(ordered, drag, yRoot, role, index)
    requires drag.Some? && FarEnough(yRoot - drag.value.startY, BulletThreshold)
    requires 0 <= index < |GetOr(ordered, role, [])|
    ensures var before := GetOr(ordered, role, []);
      var target := StepTarget(index, |before|, yRoot - drag.value.startY);
      GetOr(BulletDrop(ordered, drag, yRoot, role, index), role, []) == if target == index then before else Move(before, index, target)
  {
    var before := GetOr(ordered, role, []);
    var target := StepTarget(index, |before|, yRoot - drag.value.startY);
    StepTargetSpec(index, |before|, yRoot - drag.value.startY);
    if target != index {
      PutGetOr(ordered, role, Move(before, index, target), role, []);
    }
  }

  class BulletsSection {
    const app: Application.ResumeBuilderApp
    var dragData: Option<BulletDrag>

    constructor (app: Application.ResumeBuilderApp)
      ensures this.app == app && dragData == None
    {
      this.app := app;
      dragData := None;
    }

    /** _start_bullet_drag. */
    method StartBulletDrag(yRoot: int, role: string, index: int)
      modifies this`dragData
      ensures dragData == Some(BulletDrag(role, index, yRoot))
    {
      dragData := Some(BulletDrag(role, index, yRoot));
    }

    /**
     * _end_bullet_drag for the widget of bullet `index` of `role` (the
     * recorded role and index are not consulted, only the start position).
     * `reordered` says whether on_reorder is called.
     */
    method EndBulletDrag(yRoot: int, role: string, index: int) returns (reordered: bool)
      requires CanDrop(app.orderedBullets, dragData, yRoot, role, index)
      modifies this`dragData, app`orderedBullets
      ensures app.orderedBullets == BulletDrop(old(app.orderedBullets), old(dragData), yRoot, role, index)
      ensures reordered <==> BulletMoves(old(app.orderedBullets), old(dragData), yRoot, role, index)
      ensures dragData == None
    {
      reordered := false;
      if dragData.None? {
        return;
      }
      var yDiff := yRoot - dragData.value.startY;
      if FarEnough(yDiff, BulletThreshold) {
        var bullets := GetOr(app.orderedBullets, role, []);
        var newIndex := StepTarget(index, |bullets|, yDiff);
        if newIndex != index {
          StepTargetSpec(index, |bullets|, yDiff);
          var bulletData := bullets[index];
          bullets := Remove(bullets, index);
          bullets := Insert(bullets, newIndex, bulletData);
          app.orderedBullets := Put(app.orderedBullets, role, bullets);
          reordered := true;
        }
      }
      dragData := None;
    }
  }
}
