/**
 * Bullet selection shared by the wizard's bullet panel and the desktop
 * application: capped checkbox toggling, the default pre-selection, the
 * exact-count validation and the selected-lines total.
 */
module Selection {
  import opened Wrappers
  import opened Assoc
  import opened Records

  /** What a checkbox click does to a role's selected indices. */
  function Toggle(selected: set<nat>, required: int, idx: nat, checked: bool): set<nat>
  {
    if !checked then selected - {idx}
    else if |selected| >= required then selected
    else selected + {idx}
  }

  /**
   * A click never takes a role past its required count: a refused selection
   * leaves the set alone, an accepted one adds only that index, and
   * unchecking removes only that index.
   */
  lemma ToggleSpec(selected: set<nat>, required: int, idx: nat, checked: bool)
    ensures |selected| <= required ==> |Toggle(selected, required, idx, checked)| <= required
    ensures checked ==> (Toggle(selected, required, idx, checked) == selected ||
      (|selected| < required && Toggle(selected, required, idx, checked) == selected + {idx}))
    ensures checked && |selected| < required ==> idx in Toggle(selected, required, idx, checked)
    ensures !checked ==> Toggle(selected, required, idx, checked) == selected - {idx}
    ensures forall j :: j != idx ==> (j in Toggle(selected, required, idx, checked) <==> j in selected)
  {
    if checked && |selected| < required {
      assert |selected + {idx}| <= |selected| + 1;
    }
  }

  /** The indices pre-checked for a role with n bullets: the first `required` of them. */
  function Preselected(n: nat, required: int): set<nat>
    decreases n
  {
    if n == 0 then {}
    else Preselected(n - 1, required) + (if n - 1 < required then {n - 1} else {})
  }

  /** The pre-selection is exactly 0 .. min(required, n) - 1. */
  lemma {:induction false} PreselectedSpec(n: nat, required: int)
    ensures forall i: nat :: i in Preselected(n, required) <==> i < n && i < required
    ensures |Preselected(n, required)| == if required <= 0 then 0 else if required < n then required else n
    decreases n
  {
    if n > 0 {
      PreselectedSpec(n - 1, required);
      if n - 1 < required {
        assert n - 1 !in Preselected(n - 1, required);
      }
    }
  }

  /** _validate_selections / validate: every required role has exactly its count selected. */
  predicate AllExact(reqs: Dict<string, int>, selected: Dict<string, set<nat>>)
  {
    forall i :: 0 <= i < |reqs| ==> |GetOr(selected, reqs[i].0, {})| == reqs[i].1
  }

  /** The validation loop: stops at the first role whose count is off. */
  method ValidateSelections(reqs: Dict<string, int>, selected: Dict<string, set<nat>>) returns (ok: bool)
    ensures ok <==> AllExact(reqs, selected)
  {
    var i := 0;
    while i < |reqs|
      invariant 0 <= i <= |reqs|
      invariant forall j :: 0 <= j < i ==> |GetOr(selected, reqs[j].0, {})| == reqs[j].1
    {
      var (role, required) := reqs[i];
      if |GetOr(selected, role, {})| != required {
        return false;
      }
      i := i + 1;
    }
    return true;
  }

  // ---------------------------------------------------------------- line totals

  /** The lines of the selected indices below n of one role's bullets. */
  function RoleLines(selected: set<nat>, bullets: seq<Rec>, n: nat): int
    requires n <= |bullets|
    decreases n
  {
    if n == 0 then 0
    else RoleLines(selected, bullets, n - 1) + (if n - 1 in selected then LinesOf(bullets[n - 1]) else 0)
  }

  /** The line total over every role's selection; indices past a role's bullets count nothing. */
  function TotalLines(selected: Dict<string, set<nat>>, recs: Dict<string, seq<Rec>>): int
    decreases |selected|
  {
    if selected == [] then 0
    else
      var last := selected[|selected| - 1];
      var bullets := GetOr(recs, last.0, []);
      TotalLines(selected[..|selected| - 1], recs) + RoleLines(last.1, bullets, |bullets|)
  }

  /** Taking one index out of a selection takes its lines (if it is in range) out of the total. */
  lemma {:induction false} RoleLinesRemove(selected: set<nat>, bullets: seq<Rec>, n: nat, x: nat)
    requires n <= |bullets| && x in selected
    ensures RoleLines(selected, bullets, n) == RoleLines(selected - {x}, bullets, n) + (if x < n then LinesOf(bullets[x]) else 0)
    decreases n
  {
    if n > 0 {
      RoleLinesRemove(selected, bullets, n - 1, x);
    }
  }

  /** Selecting a new in-range index adds exactly that bullet's lines. */
  lemma RoleLinesAdd(selected: set<nat>, bullets: seq<Rec>, x: nat)
    requires x !in selected && x < |bullets|
    ensures RoleLines(selected + {x}, bullets, |bullets|) == RoleLines(selected, bullets, |bullets|) + LinesOf(bullets[x])
  {
    RoleLinesRemove(selected + {x}, bullets, |bullets|, x);
    assert selected + {x} - {x} == selected;
  }

  /** Nothing selected, no lines. */
  lemma {:induction false} RoleLinesEmpty(bullets: seq<Rec>, n: nat)
    requires n <= |bullets|
    ensures RoleLines({}, bullets, n) == 0
    decreases n
  {
    if n > 0 {
      RoleLinesEmpty(bullets, n - 1);
    }
  }

  lemma TotalLinesAt(selected: Dict<string, set<nat>>, recs: Dict<string, seq<Rec>>, i: nat)
    requires i < |selected|
    ensures TotalLines(selected[..i + 1], recs) ==
      TotalLines(selected[..i], recs) + RoleLines(selected[i].1, GetOr(recs, selected[i].0, []), |GetOr(recs, selected[i].0, [])|)
  {
    var r := selected[..i + 1];
    assert r[..|r| - 1] == selected[..i];
  }

  /** The line-count loop: every role's selected indices, in whatever order the set yields them. */
  method LineTotal(selected: Dict<string, set<nat>>, recs: Dict<string, seq<Rec>>) returns (total: int)
    ensures total == TotalLines(selected, recs)
  {
    total := 0;
    var i := 0;
    while i < |selected|
      invariant 0 <= i <= |selected|
      invariant total == TotalLines(selected[..i], recs)
    {
      var (role, indices) := selected[i];
      var bullets := GetOr(recs, role, []);
      total := AddRoleLines(total, indices, bullets);
      TotalLinesAt(selected, recs, i);
      i := i + 1;
    }
    assert selected[..i] == selected;
  }

  /** `for idx in selected_indices: if idx < len(bullets): total += lines` for one role. */
  method AddRoleLines(total0: int, indices: set<nat>, bullets: seq<Rec>) returns (total: int)
    ensures total == total0 + RoleLines(indices, bullets, |bullets|)
  {
    total := total0;
    var rest := indices;
    while rest != {}
      invariant rest <= indices
      invariant total + RoleLines(rest, bullets, |bullets|) == total0 + RoleLines(indices, bullets, |bullets|)
      decreases |rest|
    {
      var idx :| idx in rest;
      RoleLinesRemove(rest, bullets, |bullets|, idx);
      if idx < |bullets| {
        total := total + LinesOf(bullets[idx]);
      }
      rest := rest - {idx};
    }
    RoleLinesEmpty(bullets, |bullets|);
  }

  // ---------------------------------------------------------------- label colour

  datatype Colour = Green | Orange | Red | Black

  /** The line-count label: green at exactly 21 lines, red above, orange below. */
  function LineColour(total: int): (c: Colour)
    ensures c == Green <==> total == 21
    ensures c == Red <==> total > 21
    ensures c == Orange <==> total < 21
  {
    if total == 21 then Green else if total > 21 then Red else Orange
  }
}
