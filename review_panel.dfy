/**
 * The wizard's review panel: the selection summary (bullet, line and skill
 * counts), the template data it hands to the renderer, and its validation.
 */
module ReviewPanel {
  import opened Wrappers
  import opened Text
  import opened Assoc
  import opened Records
  import opened Selection
  import opened TemplateKeys
  import Application

  // ---------------------------------------------------------------- summary totals

  /** The selected-set sizes summed over the required roles; a role with no entry counts nothing. */
  function TotalBullets(reqs: Dict<string, int>, selected: Dict<string, set<nat>>): nat
    decreases |reqs|
  {
    if reqs == [] then 0
    else TotalBullets(reqs[..|reqs| - 1], selected) + |GetOr(selected, reqs[|reqs| - 1].0, {})|
  }

  /** The sum of the requirement counts. */
  function TotalRequired(reqs: Dict<string, int>): int
    decreases |reqs|
  {
    if reqs == [] then 0 else TotalRequired(reqs[..|reqs| - 1]) + reqs[|reqs| - 1].1
  }

  /** With every role at exactly its count, the bullet total is the sum of the requirements. */
  lemma {:induction false} TotalBulletsExact(reqs: Dict<string, int>, selected: Dict<string, set<nat>>)
    requires AllExact(reqs, selected)
    ensures TotalBullets(reqs, selected) == TotalRequired(reqs)
    decreases |reqs|
  {
    if reqs != [] {
      var init := reqs[..|reqs| - 1];
      assert AllExact(init, selected) by {
        forall i | 0 <= i < |init| ensures |GetOr(selected, init[i].0, {})| == init[i].1 {
          assert init[i] == reqs[i];
        }
      }
      TotalBulletsExact(init, selected);
    }
  }

  /** No required role has anything selected exactly when the bullet total is zero. */
  lemma {:induction false} TotalBulletsZero(reqs: Dict<string, int>, selected: Dict<string, set<nat>>)
    ensures TotalBullets(reqs, selected) == 0 <==> forall i :: 0 <= i < |reqs| ==> GetOr(selected, reqs[i].0, {}) == {}
    decreases |reqs|
  {
    if reqs != [] {
      var init := reqs[..|reqs| - 1];
      TotalBulletsZero(init, selected);
      assert forall i :: 0 <= i < |init| ==> init[i] == reqs[i];
    }
  }

  lemma TotalBulletsAt(reqs: Dict<string, int>, selected: Dict<string, set<nat>>, i: nat)
    requires i < |reqs|
    ensures TotalBullets(reqs[..i + 1], selected) == TotalBullets(reqs[..i], selected) + |GetOr(selected, reqs[i].0, {})|
  {
    var r := reqs[..i + 1];
    assert r[..|r| - 1] == reqs[..i];
  }

  /** The number of selected skill strings that are not blank. */
  function SkillCount(skills: Dict<string, string>): nat
    decreases |skills|
  {
    if skills == [] then 0
    else SkillCount(skills[..|skills| - 1]) + (if IsBlank(skills[|skills| - 1].1) then 0 else 1)
  }

  /** The skill count is at most the number of entries: zero exactly when all are blank, full exactly when none is. */
  lemma SkillCountSpec(skills: Dict<string, string>)
    ensures SkillCount(skills) <= |skills|
    ensures SkillCount(skills) == 0 <==> forall i :: 0 <= i < |skills| ==> IsBlank(skills[i].1)
    ensures SkillCount(skills) == |skills| <==> forall i :: 0 <= i < |skills| ==> !IsBlank(skills[i].1)
  {
    SkillCountBound(skills);
    SkillCountNone(skills);
    SkillCountFull(skills);
  }

  lemma {:induction false} SkillCountBound(skills: Dict<string, string>)
    ensures SkillCount(skills) <= |skills|
    decreases |skills|
  {
    if skills != [] {
      SkillCountBound(skills[..|skills| - 1]);
    }
  }

  lemma {:induction false} SkillCountNone(skills: Dict<string, string>)
    ensures SkillCount(skills) == 0 <==> forall i :: 0 <= i < |skills| ==> IsBlank(skills[i].1)
    decreases |skills|
  {
    if skills != [] {
      var init := skills[..|skills| - 1];
      SkillCountNone(init);
      assert forall i :: 0 <= i < |init| ==> init[i] == skills[i];
    }
  }

  lemma {:induction false} SkillCountFull(skills: Dict<string, string>)
    ensures SkillCount(skills) == |skills| <==> forall i :: 0 <= i < |skills| ==> !IsBlank(skills[i].1)
    decreases |skills|
  {
    if skills != [] {
      var init := skills[..|skills| - 1];
      SkillCountFull(init);
      SkillCountBound(init);
      assert forall i :: 0 <= i < |init| ==> init[i] == skills[i];
    }
  }

  lemma SkillCountAt(skills: Dict<string, string>, i: nat)
    requires i < |skills|
    ensures SkillCount(skills[..i + 1]) == SkillCount(skills[..i]) + (if IsBlank(skills[i].1) then 0 else 1)
  {
    var r := skills[..i + 1];
    assert r[..|r| - 1] == skills[..i];
  }

  // ---------------------------------------------------------------- the panel

  class ReviewPanel {
    const app: Application.ResumeBuilderApp

    constructor (app: Application.ResumeBuilderApp)
      ensures this.app == app
    {
      this.app := app;
    }

    /** The summary totals of load_data. */
    method SummaryTotals() returns (totalBullets: nat, totalLines: int, totalSkills: nat)
      ensures totalBullets == TotalBullets(app.selectionRequirements, app.selectedBullets)
      ensures totalLines == TotalLines(app.selectedBullets, app.recs)
      ensures totalSkills == SkillCount(app.selectedSkills)
    {
      var reqs := app.selectionRequirements;
      totalBullets := 0;
      var i := 0;
      while i < |reqs|
        invariant 0 <= i <= |reqs|
        invariant totalBullets == TotalBullets(reqs[..i], app.selectedBullets)
      {
        TotalBulletsAt(reqs, app.selectedBullets, i);
        totalBullets := totalBullets + |GetOr(app.selectedBullets, reqs[i].0, {})|;
        i := i + 1;
      }
      assert reqs[..i] == reqs;
      totalLines := LineTotal(app.selectedBullets, app.recs);
      var skills := app.selectedSkills;
      totalSkills := 0;
      var j := 0;
      while j < |skills|
        invariant 0 <= j <= |skills|
        invariant totalSkills == SkillCount(skills[..j])
      {
        SkillCountAt(skills, j);
        if !IsBlank(skills[j].1) {
          totalSkills := totalSkills + 1;
        }
        j := j + 1;
      }
      assert skills[..j] == skills;
    }

    /** _collect_final_template_data over the application's selections. */
    method CollectFinalTemplateData() returns (data: Dict<string, string>)
      ensures data == SelectionData(app.selectionRequirements, app.roleTitles, app.selectedBullets, app.recs, app.selectedSkills)
    {
      data := TemplateKeys.CollectFinalTemplateData(app.selectionRequirements, app.roleTitles, app.selectedBullets, app.recs, app.selectedSkills);
    }

    /** The review panel never blocks the wizard. */
    method Validate() returns (ok: bool)
      ensures ok
    {
      return true;
    }
  }
}
