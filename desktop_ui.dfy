/**
 * The stand-alone desktop wizard: the same four panels as the modular
 * application, with its own navigation counter, bullet toggling, budgeted
 * skill strings and final template data.
 */
module DesktopUi {
  import opened Wrappers
  import opened Assoc
  import opened Text
  import opened Records
  import Selection
  import Skills
  import SkillLimit
  import SkillsSelection
  import TemplateKeys
  import Application

  /** The character budget of one skill line. */
  const SkillCharLimit := 50

  /** The progress line shown under the status text on each panel. */
  const StatusMessages: seq<string> := [
    "Choose your files and enter job description",
    "Select the best bullet points for each role",
    "Choose skills and categories for your resume",
    "Review your selections and generate resume"]

  /** The navigation button's caption on panel p. */
  function NextText(p: int): string
  {
    if p < 3 then "Next →" else "Generate Resume"
  }

  /** A file path counts as chosen when it is present and non-empty. */
  predicate PathGiven(path: Option<string>)
  {
    path.Some? && path.value != ""
  }

  /**
   * Whether panel p lets the wizard move on: panel 0 needs both files and a
   * job description that is not blank, panel 1 the exact bullet counts, and
   * every other panel passes.
   */
  function PanelPasses(p: int, excelPath: Option<string>, templatePath: Option<string>, jdWidgetText: string,
                       reqs: Dict<string, int>, selected: Dict<string, set<nat>>): bool
  {
    if p == 0 then PathGiven(excelPath) && PathGiven(templatePath) && Strip(jdWidgetText) != ""
    else if p == 1 then Selection.AllExact(reqs, selected)
    else true
  }

  // ---------------------------------------------------------------- navigation as written

  /**
   * `_go_next` as written: a panel that validates always moves the counter
   * one step on, with no check that a later panel exists.
   */
  function NextAsWritten(p: int, valid: bool): int
  {
    if valid then p + 1 else p
  }

  /**
   * On the last panel the caption reads "Generate Resume", the panel always
   * validates, and the written step takes the counter to 4, a panel that
   * does not exist; the guarded step stays on the last panel.
   */
  lemma NextPastLastPanel()
    ensures NextText(Application.LastPanel) == "Generate Resume"
    ensures NextAsWritten(Application.LastPanel, true) == Application.PanelCount
    ensures !(0 <= NextAsWritten(Application.LastPanel, true) <= Application.LastPanel)
    ensures Application.NextPanel(Application.LastPanel, true) == Application.LastPanel
  {
  }

  /** The written and the guarded step agree on every panel before the last. */
  lemma NextAgreesBeforeLast(p: int, valid: bool)
    ensures p < Application.LastPanel ==> NextAsWritten(p, valid) == Application.NextPanel(p, valid)
    ensures p >= Application.LastPanel && valid ==> NextAsWritten(p, valid) != Application.NextPanel(p, valid)
  {
  }

  // ---------------------------------------------------------------- skill widgets

  /** One SKILL_n slot: the chosen category, the "or create new" entry and the skill checkboxes. */
  datatype SkillWidget = SkillWidget(category: string, newCategory: string, skillVars: Dict<string, bool>)

  /** The category used for a slot: the custom entry replaces "Custom" when it is filled in. */
  function WidgetCategory(w: SkillWidget): (c: string)
    ensures c == w.category || (w.category == "Custom" && c == w.newCategory && c != "")
    ensures w.category != "Custom" ==> c == w.category
  {
    if w.category == "Custom" && w.newCategory != "" then w.newCategory else w.category
  }

  /** What a slot contributes: the budgeted format of its category and ticked skills, when both exist. */
  function WidgetValue(w: SkillWidget): Option<string>
  {
    var category := WidgetCategory(w);
    var names := SkillsSelection.Checked(w.skillVars);
    if category != "" && names != [] then Some(SkillLimit.FormatWithLimit(category, names, SkillCharLimit))
    else None
  }

  /**
   * A slot contributes exactly when it has a category and a ticked skill;
   * its string is then non-empty and either within the budget or the
   * "category [...]" fallback, and it is the plain format when that fits.
   */
  lemma WidgetValueSpec(w: SkillWidget)
    requires |w.skillVars| <= 1000
    ensures WidgetValue(w).Some? <==> WidgetCategory(w) != "" && exists i :: 0 <= i < |w.skillVars| && w.skillVars[i].1
    ensures WidgetValue(w).Some? ==>
      var v := WidgetValue(w).value;
      v != "" && (|v| <= SkillCharLimit || v == SkillLimit.Fallback(WidgetCategory(w)))
    ensures WidgetValue(w).Some? ==>
      var f := Skills.FormatSkill(WidgetCategory(w), SkillsSelection.Checked(w.skillVars));
      |f| <= SkillCharLimit ==> WidgetValue(w).value == f
  {
    var category := WidgetCategory(w);
    var names := SkillsSelection.Checked(w.skillVars);
    SkillsSelection.CheckedSpec(w.skillVars);
    if category != "" && names != [] {
      SkillLimit.FormatWithLimitBound(category, names, SkillCharLimit);
      SkillLimit.FormatWithLimitShort(category, names, SkillCharLimit);
      WidgetValueNonEmpty(category, names);
    }
  }

  /** The budgeted format of at least one skill is never empty. */
  lemma WidgetValueNonEmpty(category: string, names: seq<string>)
    requires names != []
    ensures SkillLimit.FormatWithLimit(category, names, SkillCharLimit) != ""
  {
    var formatted := Skills.FormatSkill(category, names);
    assert |formatted| >= 3;
    if |formatted| > SkillCharLimit && |names| >= 2 {
      var n := SkillLimit.Kept(category, names, SkillCharLimit, |names|);
      if n > 0 {
        var f := Skills.FormatSkill(category, names[..n]);
        assert |f| >= 3;
      }
    }
  }

  /** `_collect_selected_skills`: each slot's contribution under its key, in slot order. */
  function DesktopSkills(widgets: Dict<string, SkillWidget>): Dict<string, string>
  {
    Collect(widgets, WidgetValue)
  }

  lemma DesktopSkillsAt(widgets: Dict<string, SkillWidget>, i: nat)
    requires i < |widgets|
    ensures DesktopSkills(widgets[..i + 1]) ==
      var prev := DesktopSkills(widgets[..i]);
      match WidgetValue(widgets[i].1)
      case Some(v) => Put(prev, widgets[i].0, v)
      case None => prev
  {
    var r := widgets[..i + 1];
    assert r[..|r| - 1] == widgets[..i];
  }

  /** With distinct slot keys, each slot's entry is exactly what that slot contributes, and a key that names no slot is not collected. */
  lemma DesktopSkillsGet(widgets: Dict<string, SkillWidget>, j: nat, key: string)
    requires DistinctKeys(widgets) && j < |widgets|
    ensures Get(DesktopSkills(widgets), widgets[j].0) == WidgetValue(widgets[j].1)
    ensures (forall i :: 0 <= i < |widgets| ==> widgets[i].0 != key) ==> Get(DesktopSkills(widgets), key) == None
  {
    CollectGet(widgets, WidgetValue, j);
    if forall i :: 0 <= i < |widgets| ==> widgets[i].0 != key {
      CollectAbsent(widgets, WidgetValue, key);
    }
  }

  // ---------------------------------------------------------------- the application

  class DesktopApp {
    var currentPanel: int
    var backEnabled: bool
    var nextText: string
    var status: string
    var progress: string

    var excelPath: Option<string>
    var templatePath: Option<string>
    /** What the job-description text box holds; `jdText` is its stripped copy once panel 0 is left. */
    var jdWidgetText: string
    var jdText: string
    var recs: Dict<string, seq<Rec>>
    var selectedBullets: Dict<string, set<nat>>
    var roleTitles: Dict<string, string>
    var selectedSkills: Dict<string, string>
    var skillWidgets: Dict<string, SkillWidget>
    var selectionRequirements: Dict<string, int>

    /** The counter names a panel and the navigation widgets agree with it. */
    predicate Valid()
      reads this`currentPanel, this`backEnabled, this`nextText, this`status, this`progress
    {
      && 0 <= currentPanel <= Application.LastPanel
      && backEnabled == (currentPanel > 0)
      && nextText == NextText(currentPanel)
      && status == Application.StatusText(currentPanel)
      && progress == StatusMessages[currentPanel]
    }

    /** A fresh wizard on the first panel; the default files are those found in the working directory. */
    constructor (defaultExcel: Option<string>, defaultTemplate: Option<string>)
      ensures Valid() && currentPanel == 0
      ensures excelPath == defaultExcel && templatePath == defaultTemplate
      ensures jdWidgetText == "" && jdText == ""
      ensures recs == [] && selectedBullets == [] && roleTitles == [] && selectedSkills == [] && skillWidgets == []
      ensures selectionRequirements == Application.DefaultRequirements
    {
      currentPanel := 0;
      excelPath := defaultExcel;
      templatePath := defaultTemplate;
      jdWidgetText := "";
      jdText := "";
      recs := [];
      selectedBullets := [];
      roleTitles := [];
      selectedSkills := [];
      skillWidgets := [];
      selectionRequirements := Application.DefaultRequirements;
      status := "";
      new;
      UpdateNavigation();
    }

    /**
     * `_update_navigation`: back is enabled past the first panel, the caption
     * changes on the last one, and the status texts are replaced only for a
     * counter that names a panel.
     */
    method UpdateNavigation()
      requires currentPanel >= 0
      modifies this`backEnabled, this`nextText, this`status, this`progress
      ensures backEnabled == (currentPanel > 0) && nextText == NextText(currentPanel)
      ensures currentPanel < Application.PanelCount ==>
        status == Application.StatusText(currentPanel) && progress == StatusMessages[currentPanel]
      ensures currentPanel >= Application.PanelCount ==> status == old(status) && progress == old(progress)
      ensures currentPanel <= Application.LastPanel ==> Valid()
    {
      backEnabled := currentPanel > 0;
      if currentPanel < 4 {
        status := "Step " + NatToString(currentPanel + 1) + " of 4: " + Application.StepNames[currentPanel];
        progress := StatusMessages[currentPanel];
      }
      if currentPanel < 3 {
        nextText := "Next →";
      } else {
        nextText := "Generate Resume";
      }
    }

    /**
     * `_on_bullet_selection`: ticking adds the index unless the role already
     * has its required count, in which case the box is unticked again;
     * unticking removes the index. Both lookups fail for a role the
     * requirements do not name.
     */
    method OnBulletSelection(role: string, idx: nat, checked: bool) returns (ticked: bool)
      requires HasKey(selectionRequirements, role) && HasKey(selectedBullets, role)
      modifies this`selectedBullets
      ensures var before := GetOr(old(selectedBullets), role, {});
        var required := GetOr(selectionRequirements, role, 0);
        && selectedBullets == Put(old(selectedBullets), role, Selection.Toggle(before, required, idx, checked))
        && (ticked <==> checked && |before| < required)
    {
      var requiredCount := GetOr(selectionRequirements, role, 0);
      var selectedSet := GetOr(selectedBullets, role, {});
      ticked := checked;
      if checked {
        if |selectedSet| >= requiredCount {
          ticked := false;
        } else {
          selectedSet := selectedSet + {idx};
        }
      } else {
        selectedSet := selectedSet - {idx};
      }
      selectedBullets := Put(selectedBullets, role, selectedSet);
    }

    /** `_validate_selections`: every role has exactly its required count selected. */
    method ValidateSelections() returns (ok: bool)
      ensures ok <==> Selection.AllExact(selectionRequirements, selectedBullets)
    {
      ok := Selection.ValidateSelections(selectionRequirements, selectedBullets);
    }

    /** `_collect_selected_skills`: the previous selection is replaced by what the slots contribute. */
    method CollectSelectedSkills()
      modifies this`selectedSkills
      ensures selectedSkills == DesktopSkills(skillWidgets)
    {
      var collected: Dict<string, string> := [];
      var i := 0;
      while i < |skillWidgets|
        invariant 0 <= i <= |skillWidgets|
        invariant collected == DesktopSkills(skillWidgets[..i])
      {
        var (key, w) := skillWidgets[i];
        var category := w.category;
        if category == "Custom" && w.newCategory != "" {
          category := w.newCategory;
        }
        var names := SkillsSelection.Checked(w.skillVars);
        if category != "" && names != [] {
          var formatted := SkillLimit.FormatSkillWithLimit(category, names, SkillCharLimit);
          collected := Put(collected, key, formatted);
        }
        DesktopSkillsAt(skillWidgets, i);
        i := i + 1;
      }
      assert skillWidgets[..|skillWidgets|] == skillWidgets;
      selectedSkills := collected;
    }

    /**
     * `_validate_current_panel`: panel 0 needs both files and a non-blank job
     * description (stored stripped once both files are chosen), panel 1 the
     * exact bullet counts, panel 2 collects the skills and always passes, and
     * any other panel passes.
     */
    method ValidateCurrentPanel() returns (ok: bool)
      modifies this`jdText, this`selectedSkills
      ensures ok == PanelPasses(currentPanel, excelPath, templatePath, jdWidgetText, selectionRequirements, selectedBullets)
      ensures jdText == if currentPanel == 0 && PathGiven(excelPath) && PathGiven(templatePath)
                        then Strip(jdWidgetText) else old(jdText)
      ensures selectedSkills == if currentPanel == 2 then DesktopSkills(skillWidgets) else old(selectedSkills)
    {
      if currentPanel == 0 {
        if excelPath.None? || excelPath.value == "" {
          return false;
        }
        if templatePath.None? || templatePath.value == "" {
          return false;
        }
        jdText := Strip(jdWidgetText);
        return jdText != "";
      } else if currentPanel == 1 {
        ok := ValidateSelections();
      } else if currentPanel == 2 {
        CollectSelectedSkills();
        ok := true;
      } else {
        ok := true;
      }
    }

    /**
     * `_go_next` with the panel range respected: a panel that validates moves
     * the counter one step on unless it is the last, and the panel left
     * behind reports whose data it loads (recommendations, skills, review).
     */
    method GoNext() returns (loaded: Option<nat>)
      requires Valid()
      modifies this`currentPanel, this`backEnabled, this`nextText, this`status, this`progress
      modifies this`jdText, this`selectedSkills
      ensures Valid()
      ensures currentPanel == Application.NextPanel(old(currentPanel),
        PanelPasses(old(currentPanel), excelPath, templatePath, jdWidgetText, selectionRequirements, selectedBullets))
      ensures selectedSkills == if old(currentPanel) == 2 then DesktopSkills(skillWidgets) else old(selectedSkills)
      ensures loaded == if currentPanel != old(currentPanel) then Some(old(currentPanel)) else None
    {
      var ok := ValidateCurrentPanel();
      loaded := Advance(ok);
    }

    /** The step after validation: move on unless the panel failed or is the last, and name the panel left behind. */
    method Advance(ok: bool) returns (loaded: Option<nat>)
      requires Valid()
      modifies this`currentPanel, this`backEnabled, this`nextText, this`status, this`progress
      ensures Valid()
      ensures currentPanel == Application.NextPanel(old(currentPanel), ok)
      ensures loaded == if currentPanel != old(currentPanel) then Some(old(currentPanel)) else None
    {
      loaded := None;
      if ok && currentPanel < Application.LastPanel {
        loaded := Some(currentPanel);
        currentPanel := currentPanel + 1;
        UpdateNavigation();
      }
    }

    /**
     * `_go_next` as written: the last panel validates too, so the counter
     * moves past it; only panels 0 to 2 load data first. Past the last
     * panel `notebook.select` has no tab to show and raises, so the
     * navigation update after it is not reached.
     */
    method GoNextAsWritten() returns (loaded: Option<nat>)
      requires currentPanel >= 0
      modifies this`currentPanel, this`backEnabled, this`nextText, this`status, this`progress
      modifies this`jdText, this`selectedSkills
      ensures currentPanel == NextAsWritten(old(currentPanel),
        PanelPasses(old(currentPanel), excelPath, templatePath, jdWidgetText, selectionRequirements, selectedBullets))
      ensures old(currentPanel) >= Application.LastPanel ==> currentPanel == old(currentPanel) + 1
      ensures loaded == if currentPanel != old(currentPanel) && old(currentPanel) < Application.LastPanel
                        then Some(old(currentPanel)) else None
      ensures currentPanel > Application.LastPanel ==>
        backEnabled == old(backEnabled) && nextText == old(nextText) && status == old(status) && progress == old(progress)
    {
      loaded := None;
      var ok := ValidateCurrentPanel();
      if ok {
        if currentPanel < 3 {
          loaded := Some(currentPanel);
        }
        currentPanel := currentPanel + 1;
        if currentPanel <= Application.LastPanel {
          UpdateNavigation();
        }
      }
    }

    /** `_go_back`: one step back from any panel but the first. */
    method GoBack()
      requires Valid()
      modifies this`currentPanel, this`backEnabled, this`nextText, this`status, this`progress
      ensures Valid()
      ensures currentPanel == Application.PrevPanel(old(currentPanel))
    {
      if currentPanel > 0 {
        currentPanel := currentPanel - 1;
        UpdateNavigation();
      }
    }

    /** `_collect_final_template_data`: the same per-role and skill entries as the review panel builds. */
    method CollectFinalTemplateData() returns (data: Dict<string, string>)
      ensures data == TemplateKeys.SelectionData(selectionRequirements, roleTitles, selectedBullets, recs, selectedSkills)
    {
      data := TemplateKeys.CollectFinalTemplateData(selectionRequirements, roleTitles, selectedBullets, recs, selectedSkills);
    }
  }
}
