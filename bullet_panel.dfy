/**
 * The wizard's bullet-selection panel: clearing every required role's
 * selection, building the per-role recommendations, pre-checking the first
 * `required` bullets of each role, capped toggling, the "Total Lines: n/21"
 * label and the exact-count validation.
 */
module BulletSelection {
  import opened Wrappers
  import opened Text
  import opened Assoc
  import opened Records
  import opened Selection
  import Application

  /** The line budget of a one-page resume. */
  const LineBudget := 21

  // ---------------------------------------------------------------- reset

  /** `for role in requirements: selected_bullets[role] = set()`. */
  function Cleared(selected: Dict<string, set<nat>>, reqs: Dict<string, int>): Dict<string, set<nat>>
    decreases |reqs|
  {
    if reqs == [] then selected
    else Put(Cleared(selected, reqs[..|reqs| - 1]), reqs[|reqs| - 1].0, {})
  }

  lemma ClearedAt(selected: Dict<string, set<nat>>, reqs: Dict<string, int>, i: nat)
    requires i < |reqs|
    ensures Cleared(selected, reqs[..i + 1]) == Put(Cleared(selected, reqs[..i]), reqs[i].0, {})
  {
    var r := reqs[..i + 1];
    assert r[..|r| - 1] == reqs[..i];
  }

  /** Every required role ends up with an empty selection; nothing else changes. */
  lemma {:induction false} ClearedSpec(selected: Dict<string, set<nat>>, reqs: Dict<string, int>, role: string)
    ensures Get(Cleared(selected, reqs), role) == if HasKey(reqs, role) then Some({}) else Get(selected, role)
    decreases |reqs|
  {
    if reqs != [] {
      var init := reqs[..|reqs| - 1];
      ClearedSpec(selected, init, role);
      PutGet(Cleared(selected, init), reqs[|reqs| - 1].0, {}, role);
      HasKeySnoc(reqs, role);
    }
  }

  // ---------------------------------------------------------------- recommendations

  /** The recommendations kept for the required roles that have bullets, in requirement order. */
  function RecsFor(reqs: Dict<string, int>, ranked: Dict<string, seq<Rec>>): Dict<string, seq<Rec>>
    decreases |reqs|
  {
    if reqs == [] then []
    else
      var prev := RecsFor(reqs[..|reqs| - 1], ranked);
      var role := reqs[|reqs| - 1].0;
      var bullets := GetOr(ranked, role, []);
      if bullets == [] then prev else Put(prev, role, bullets)
  }

  lemma RecsForAt(reqs: Dict<string, int>, ranked: Dict<string, seq<Rec>>, i: nat)
    requires i < |reqs|
    ensures var bullets := GetOr(ranked, reqs[i].0, []);
      RecsFor(reqs[..i + 1], ranked) == if bullets == [] then RecsFor(reqs[..i], ranked) else Put(RecsFor(reqs[..i], ranked), reqs[i].0, bullets)
  {
    var r := reqs[..i + 1];
    assert r[..|r| - 1] == reqs[..i];
  }

  /** A role has recommendations exactly when it is required and has bullets, and they are its bullets. */
  lemma {:induction false} RecsForSpec(reqs: Dict<string, int>, ranked: Dict<string, seq<Rec>>, role: string)
    ensures DistinctKeys(RecsFor(reqs, ranked))
    ensures Get(RecsFor(reqs, ranked), role) ==
      if HasKey(reqs, role) && GetOr(ranked, role, []) != [] then Some(GetOr(ranked, role, [])) else None
    ensures forall i :: 0 <= i < |RecsFor(reqs, ranked)| ==> HasKey(reqs, RecsFor(reqs, ranked)[i].0)
    decreases |reqs|
  {
    if reqs != [] {
      var init := reqs[..|reqs| - 1];
      var last := reqs[|reqs| - 1].0;
      var prev := RecsFor(init, ranked);
      RecsForSpec(init, ranked, role);
      HasKeySnoc(reqs, role);
      var bullets := GetOr(ranked, last, []);
      if bullets != [] {
        PutSpec(prev, last, bullets);
        var r := Put(prev, last, bullets);
        forall i | 0 <= i < |r| ensures HasKey(reqs, r[i].0) {
          assert r[i].0 in Keys(r);
          if r[i].0 != last {
            var j :| 0 <= j < |prev| && prev[j].0 == r[i].0;
            HasKeySnoc(reqs, prev[j].0);
          } else {
            HasKeySnoc(reqs, last);
          }
        }
      } else {
        forall i | 0 <= i < |prev| ensures HasKey(reqs, prev[i].0) {
          HasKeySnoc(reqs, prev[i].0);
        }
      }
    }
  }

  // ---------------------------------------------------------------- pre-selection

  /** The display loop asks for a role's requirement exactly when it shows bullets for it. */
  predicate ShownRequired(recs: Dict<string, seq<Rec>>, reqs: Dict<string, int>)
  {
    forall i :: 0 <= i < |recs| && recs[i].1 != [] ==> HasKey(reqs, recs[i].0)
  }

  /** `selected_bullets.setdefault(role, set()).add(idx)` for every shown index below the requirement. */
  function Preselect(selected: Dict<string, set<nat>>, recs: Dict<string, seq<Rec>>, reqs: Dict<string, int>): Dict<string, set<nat>>
    requires ShownRequired(recs, reqs)
    decreases |recs|
  {
    if recs == [] then selected
    else
      var prev := Preselect(selected, recs[..|recs| - 1], reqs);
      var (role, items) := recs[|recs| - 1];
      var required := GetOr(reqs, role, 0);
      if items != [] && required > 0 then Put(prev, role, GetOr(prev, role, {}) + Preselected(|items|, required))
      else prev
  }

  lemma PreselectAt(selected: Dict<string, set<nat>>, recs: Dict<string, seq<Rec>>, reqs: Dict<string, int>, i: nat)
    requires ShownRequired(recs, reqs) && i < |recs|
    ensures ShownRequired(recs[..i], reqs) && ShownRequired(recs[..i + 1], reqs)
    ensures var prev := Preselect(selected, recs[..i], reqs);
      var required := GetOr(reqs, recs[i].0, 0);
      Preselect(selected, recs[..i + 1], reqs) ==
        if recs[i].1 != [] && required > 0 then Put(prev, recs[i].0, GetOr(prev, recs[i].0, {}) + Preselected(|recs[i].1|, required))
        else prev
  {
    var r := recs[..i + 1];
    assert r[..|r| - 1] == recs[..i];
  }

  lemma PreselectedNone(n: nat, required: int)
    requires n == 0 || required <= 0
    ensures Preselected(n, required) == {}
  {
    PreselectedSpec(n, required);
  }

  /** Each shown role gains the indices below its requirement; nothing else changes. */
  lemma {:induction false} PreselectSpec(selected: Dict<string, set<nat>>, recs: Dict<string, seq<Rec>>, reqs: Dict<string, int>, role: string)
    requires ShownRequired(recs, reqs) && DistinctKeys(recs)
    ensures GetOr(Preselect(selected, recs, reqs), role, {}) ==
      GetOr(selected, role, {}) + Preselected(|GetOr(recs, role, [])|, GetOr(reqs, role, 0))
    decreases |recs|
  {
    if recs == [] {
      PreselectedNone(0, GetOr(reqs, role, 0));
    } else {
      var n := |recs| - 1;
      var init := recs[..n];
      var (last, items) := recs[n];
      assert ShownRequired(init, reqs);
      assert DistinctKeys(init);
      PreselectSpec(selected, init, reqs, role);
      GetSnoc(recs, role);
      var prev := Preselect(selected, init, reqs);
      var required := GetOr(reqs, last, 0);
      if items != [] && required > 0 {
        PutGetOr(prev, last, GetOr(prev, last, {}) + Preselected(|items|, required), role, {});
      }
      if last == role {
        assert forall j :: 0 <= j < |init| ==> init[j].0 != role by {
          forall j | 0 <= j < |init| ensures init[j].0 != role {
            assert init[j] == recs[j];
          }
        }
        assert role !in Keys(init);
        GetSpec(init, role);
        PreselectedNone(0, required);
        if !(items != [] && required > 0) {
          PreselectedNone(|items|, required);
        }
      }
    }
  }

  /**
   * After the reset and the pre-selection, every required role has exactly
   * the first min(required, n) indices selected, n being the number of its
   * bullets shown.
   */
  lemma LoadedSelection(selected: Dict<string, set<nat>>, recs: Dict<string, seq<Rec>>, reqs: Dict<string, int>, role: string)
    requires ShownRequired(recs, reqs) && DistinctKeys(recs) && HasKey(reqs, role)
    ensures var sel := GetOr(Preselect(Cleared(selected, reqs), recs, reqs), role, {});
      var n := |GetOr(recs, role, [])|;
      var required := GetOr(reqs, role, 0);
      && (forall i: nat :: i in sel <==> i < n && i < required)
      && |sel| == if required <= 0 then 0 else if required < n then required else n
  {
    ClearedSpec(selected, reqs, role);
    PreselectSpec(Cleared(selected, reqs), recs, reqs, role);
    PreselectedSpec(|GetOr(recs, role, [])|, GetOr(reqs, role, 0));
    assert {} + Preselected(|GetOr(recs, role, [])|, GetOr(reqs, role, 0)) == Preselected(|GetOr(recs, role, [])|, GetOr(reqs, role, 0));
  }

  /**
   * The default pre-selection passes validation whenever every required
   * role has at least as many recommended bullets as it needs.
   */
  lemma DefaultSelectionValid(selected: Dict<string, set<nat>>, recs: Dict<string, seq<Rec>>, reqs: Dict<string, int>)
    requires ShownRequired(recs, reqs) && DistinctKeys(recs) && DistinctKeys(reqs)
    requires forall i :: 0 <= i < |reqs| ==> 0 <= reqs[i].1 <= |GetOr(recs, reqs[i].0, [])|
    ensures AllExact(reqs, Preselect(Cleared(selected, reqs), recs, reqs))
  {
    forall i | 0 <= i < |reqs|
      ensures |GetOr(Preselect(Cleared(selected, reqs), recs, reqs), reqs[i].0, {})| == reqs[i].1
    {
      GetAt(reqs, i);
      assert reqs[i].0 in Keys(reqs);
      LoadedSelection(selected, recs, reqs, reqs[i].0);
    }
  }

  // ---------------------------------------------------------------- the panel

  /** The "Total Lines: n/21" label text. */
  function LineText(total: int): string
  {
    "Total Lines: " + IntToString(total) + "/21"
  }

  class BulletSelectionPanel {
    const app: Application.ResumeBuilderApp
    var lineText: string
    var lineColour: Colour

    constructor (app: Application.ResumeBuilderApp)
      ensures this.app == app
    {
      this.app := app;
      lineText := LineText(0);
      lineColour := LineColour(0);
    }

    /** The reset at the start of load_data. */
    method ResetSelections()
      modifies app`selectedBullets
      ensures app.selectedBullets == Cleared(old(app.selectedBullets), app.selectionRequirements)
    {
      var reqs := app.selectionRequirements;
      ghost var start := app.selectedBullets;
      var i := 0;
      while i < |reqs|
        invariant 0 <= i <= |reqs|
        invariant app.selectedBullets == Cleared(start, reqs[..i])
      {
        ClearedAt(start, reqs, i);
        app.selectedBullets := Put(app.selectedBullets, reqs[i].0, {});
        i := i + 1;
      }
      assert reqs[..i] == reqs;
    }

    /** The recommendation loop of load_data, given each role's ranked bullets. */
    method BuildRecs(ranked: Dict<string, seq<Rec>>)
      modifies app`recs
      ensures app.recs == RecsFor(app.selectionRequirements, ranked)
    {
      var reqs := app.selectionRequirements;
      app.recs := [];
      var i := 0;
      while i < |reqs|
        invariant 0 <= i <= |reqs|
        invariant app.recs == RecsFor(reqs[..i], ranked)
      {
        RecsForAt(reqs, ranked, i);
        var role := reqs[i].0;
        var bullets := GetOr(ranked, role, []);
        if bullets != [] {
          app.recs := Put(app.recs, role, bullets);
        }
        i := i + 1;
      }
      assert reqs[..i] == reqs;
    }

    /** `for idx in range(n): if idx < required: selected.add(idx)` for one role. */
    static method AddPreselected(current: set<nat>, n: nat, required: int) returns (r: set<nat>)
      ensures r == current + Preselected(n, required)
    {
      r := current;
      var idx := 0;
      while idx < n
        invariant 0 <= idx <= n
        invariant r == current + Preselected(idx, required)
      {
        if idx < required {
          r := r + {idx};
        }
        idx := idx + 1;
      }
    }

    /** The selection part of _display_role_recommendations, followed by the line-count update. */
    method PreselectRecommendations()
      requires ShownRequired(app.recs, app.selectionRequirements)
      modifies app`selectedBullets, this`lineText, this`lineColour
      ensures app.selectedBullets == Preselect(old(app.selectedBullets), app.recs, app.selectionRequirements)
      ensures lineText == LineText(TotalLines(app.selectedBullets, app.recs))
      ensures lineColour == LineColour(TotalLines(app.selectedBullets, app.recs))
    {
      var recs := app.recs;
      var reqs := app.selectionRequirements;
      ghost var start := app.selectedBullets;
      var i := 0;
      while i < |recs|
        invariant 0 <= i <= |recs|
        invariant ShownRequired(recs[..i], reqs)
        invariant app.selectedBullets == Preselect(start, recs[..i], reqs)
      {
        PreselectAt(start, recs, reqs, i);
        var (role, items) := recs[i];
        if items != [] {
          var required := GetOr(reqs, role, 0);
          if required > 0 {
            var current := GetOr(app.selectedBullets, role, {});
            var added := AddPreselected(current, |items|, required);
            app.selectedBullets := Put(app.selectedBullets, role, added);
          }
        }
        i := i + 1;
      }
      assert recs[..i] == recs;
      UpdateLineCount();
    }

    /**
     * load_data with the candidate sheet's bullets already ranked per role:
     * the reset, then (when a sheet is chosen) the recommendations, the
     * pre-selection and the line-count label. Without a sheet only the
     * reset happens.
     */
    method LoadData(ranked: Dict<string, seq<Rec>>)
      modifies app`selectedBullets, app`recs, this`lineText, this`lineColour
      ensures old(app.excelPath).None? ==>
        && app.selectedBullets == Cleared(old(app.selectedBullets), app.selectionRequirements)
        && app.recs == old(app.recs) && lineText == old(lineText) && lineColour == old(lineColour)
      ensures old(app.excelPath).Some? ==>
        && app.recs == RecsFor(app.selectionRequirements, ranked)
        && ShownRequired(app.recs, app.selectionRequirements)
        && app.selectedBullets == Preselect(Cleared(old(app.selectedBullets), app.selectionRequirements), app.recs, app.selectionRequirements)
        && lineText == LineText(TotalLines(app.selectedBullets, app.recs))
        && lineColour == LineColour(TotalLines(app.selectedBullets, app.recs))
    {
      ResetSelections();
      if app.excelPath.None? {
        return;
      }
      BuildRecs(ranked);
      forall i | 0 <= i < |app.recs| ensures HasKey(app.selectionRequirements, app.recs[i].0) {
        RecsForSpec(app.selectionRequirements, ranked, app.recs[i].0);
      }
      PreselectRecommendations();
    }

    /**
     * _on_bullet_selection: the click is applied through the cap, the label
     * is refreshed, and the checkbox's final state is returned (a refused
     * click unticks it).
     */
    method OnBulletSelection(role: string, idx: nat, checked: bool) returns (ticked: bool)
      requires HasKey(app.selectionRequirements, role) && HasKey(app.selectedBullets, role)
      modifies app`selectedBullets, this`lineText, this`lineColour
      ensures var before := GetOr(old(app.selectedBullets), role, {});
        var required := GetOr(app.selectionRequirements, role, 0);
        && app.selectedBullets == Put(old(app.selectedBullets), role, Toggle(before, required, idx, checked))
        && (ticked <==> checked && |before| < required)
      ensures lineText == LineText(TotalLines(app.selectedBullets, app.recs))
      ensures lineColour == LineColour(TotalLines(app.selectedBullets, app.recs))
    {
      var requiredCount := GetOr(app.selectionRequirements, role, 0);
      var selectedSet := GetOr(app.selectedBullets, role, {});
      ticked := checked;
      if checked {
        if |selectedSet| >= requiredCount {
          ticked := false;
        } else {
          selectedSet := selectedSet + {idx};
        }
      } else {
        selectedSet := selectedSet - {idx};
      }
      app.selectedBullets := Put(app.selectedBullets, role, selectedSet);
      UpdateLineCount();
    }

    /** _update_line_count. */
    method UpdateLineCount()
      modifies this`lineText, this`lineColour
      ensures lineText == LineText(TotalLines(app.selectedBullets, app.recs))
      ensures lineColour == LineColour(TotalLines(app.selectedBullets, app.recs))
    {
      var total := LineTotal(app.selectedBullets, app.recs);
      lineText := "Total Lines: " + IntToString(total) + "/21";
      if total == 21 {
        lineColour := Green;
      } else if total > 21 {
        lineColour := Red;
      } else {
        lineColour := Orange;
      }
    }

    /** validate: every required role has exactly its count selected. */
    method Validate() returns (ok: bool)
      ensures ok <==> AllExact(app.selectionRequirements, app.selectedBullets)
    {
      ok := ValidateSelections(app.selectionRequirements, app.selectedBullets);
    }
  }
}
