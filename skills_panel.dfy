/**
 * The wizard's skills panel: the skills shown for the ticked categories,
 * the four "SKILL_n" sections (a category name and ticked skills), their
 * character-count label, the collection of their formatted strings and the
 * panel's validation.
 */
module SkillsSelection {
  import opened Wrappers
  import opened Text
  import opened Assoc
  import opened Selection
  import Skills
  import Application
  import StringOrder
  import TemplateKeys

  /** The character budget of one formatted skill section. */
  const CharLimit := 50
  /** Above this the count label turns orange. */
  const WarnLimit := 45

  // ---------------------------------------------------------------- filtered skills

  /** The ticked categories. */
  function TickedCategories(vars: Dict<string, bool>): (r: set<string>)
    ensures forall c :: c in r <==> exists i :: 0 <= i < |vars| && vars[i] == (c, true)
  {
    set i | 0 <= i < |vars| && vars[i].1 :: vars[i].0
  }

  /** any(cat in selected for cat in categories). */
  predicate InSome(categories: seq<string>, selected: set<string>)
  {
    exists i :: 0 <= i < |categories| && categories[i] in selected
  }

  /** The skills with at least one selected category, in sheet order, with their category lists. */
  function Filtered(skills: Dict<string, seq<string>>, selected: set<string>): Dict<string, seq<string>>
    decreases |skills|
  {
    if skills == [] then []
    else
      var prev := Filtered(skills[..|skills| - 1], selected);
      var (skill, categories) := skills[|skills| - 1];
      if InSome(categories, selected) then Put(prev, skill, categories) else prev
  }

  lemma FilteredAt(skills: Dict<string, seq<string>>, selected: set<string>, i: nat)
    requires i < |skills|
    ensures Filtered(skills[..i + 1], selected) ==
      var prev := Filtered(skills[..i], selected);
      if InSome(skills[i].1, selected) then Put(prev, skills[i].0, skills[i].1) else prev
  {
    var r := skills[..i + 1];
    assert r[..|r| - 1] == skills[..i];
  }

  /**
   * A skill is kept, with its categories unchanged, exactly when one of its
   * categories is selected; nothing else is kept.
   */
  lemma {:induction false} FilteredSpec(skills: Dict<string, seq<string>>, selected: set<string>, skill: string)
    requires DistinctKeys(skills)
    ensures Get(Filtered(skills, selected), skill) ==
      if Get(skills, skill).Some? && InSome(Get(skills, skill).value, selected) then Get(skills, skill) else None
    decreases |skills|
  {
    if skills != [] {
      var init := skills[..|skills| - 1];
      var (s, categories) := skills[|skills| - 1];
      assert DistinctKeys(init) by {
        assert Keys(init) == Keys(skills)[..|skills| - 1];
      }
      FilteredSpec(init, selected, skill);
      PutGet(Filtered(init, selected), s, categories, skill);
      GetSnoc(skills, skill);
      if s == skill {
        assert Keys(skills)[|skills| - 1] == s;
        GetSpec(init, skill);
        assert !HasKey(init, skill);
      }
    }
  }

  // ---------------------------------------------------------------- sections

  /** One skill section: the entered category name and the checkbox of each shown skill. */
  datatype Section = Section(categoryName: string, skillVars: Dict<string, bool>)

  /** [skill for skill, var in skill_vars.items() if var.get()]. */
  function Checked(vars: Dict<string, bool>): (r: seq<string>)
    ensures |r| <= |vars|
    decreases |vars|
  {
    if vars == [] then []
    else Checked(vars[..|vars| - 1]) + (if vars[|vars| - 1].1 then [vars[|vars| - 1].0] else [])
  }

  /** The checked skills are the ticked entries, in their order, and nothing else. */
  lemma CheckedSpec(vars: Dict<string, bool>)
    ensures Checked(vars) == [] <==> forall i :: 0 <= i < |vars| ==> !vars[i].1
    ensures forall s :: s in Checked(vars) <==> exists i :: 0 <= i < |vars| && vars[i] == (s, true)
  {
    CheckedEmpty(vars);
    forall s ensures s in Checked(vars) <==> exists i :: 0 <= i < |vars| && vars[i] == (s, true) {
      CheckedMember(vars, s);
    }
  }

  lemma {:induction false} CheckedEmpty(vars: Dict<string, bool>)
    ensures Checked(vars) == [] <==> forall i :: 0 <= i < |vars| ==> !vars[i].1
    decreases |vars|
  {
    if vars != [] {
      var init := vars[..|vars| - 1];
      CheckedEmpty(init);
      assert forall i :: 0 <= i < |init| ==> init[i] == vars[i];
    }
  }

  lemma {:induction false} CheckedMember(vars: Dict<string, bool>, s: string)
    ensures s in Checked(vars) <==> exists i :: 0 <= i < |vars| && vars[i] == (s, true)
    decreases |vars|
  {
    if vars != [] {
      var n := |vars| - 1;
      var init := vars[..n];
      CheckedMember(init, s);
      if s in Checked(vars) {
        if s in Checked(init) {
          var i :| 0 <= i < |init| && init[i] == (s, true);
          assert vars[i] == (s, true);
        } else {
          assert vars[n] == (s, true);
        }
      }
      forall i | 0 <= i < |vars| && vars[i] == (s, true) ensures s in Checked(vars) {
        if i < n {
          assert init[i] == (s, true);
        }
      }
    }
  }

  /** What a section contributes: its formatted string when it has a name, a checked skill and fits the limit. */
  function SectionValue(section: Section): Option<string>
  {
    var category := Strip(section.categoryName);
    var checked := Checked(section.skillVars);
    if category != [] && checked != [] then
      var formatted := Skills.FormatSkill(category, checked);
      if |formatted| <= CharLimit then Some(formatted) else None
    else None
  }

  /** _collect_selected_skills after the clear: one entry per contributing section, in section order. */
  function Collected(sections: Dict<string, Section>): Dict<string, string>
    decreases |sections|
  {
    if sections == [] then []
    else
      var prev := Collected(sections[..|sections| - 1]);
      var (key, section) := sections[|sections| - 1];
      match SectionValue(section)
      case Some(v) => Put(prev, key, v)
      case None => prev
  }

  lemma CollectedAt(sections: Dict<string, Section>, i: nat)
    requires i < |sections|
    ensures Collected(sections[..i + 1]) ==
      var prev := Collected(sections[..i]);
      match SectionValue(sections[i].1)
      case Some(v) => Put(prev, sections[i].0, v)
      case None => prev
  {
    var r := sections[..i + 1];
    assert r[..|r| - 1] == sections[..i];
  }

  /** Every collected value is at most 50 characters. */
  lemma {:induction false} CollectedBound(sections: Dict<string, Section>)
    ensures forall i :: 0 <= i < |Collected(sections)| ==> |Collected(sections)[i].1| <= CharLimit
    decreases |sections|
  {
    if sections != [] {
      var init := sections[..|sections| - 1];
      var (key, section) := sections[|sections| - 1];
      CollectedBound(init);
      var prev := Collected(init);
      if SectionValue(section).Some? {
        var v := SectionValue(section).value;
        assert Collected(sections) == Put(prev, key, v);
        PutPairs(prev, key, v);
        forall i | 0 <= i < |Put(prev, key, v)| ensures |Put(prev, key, v)[i].1| <= CharLimit {
          if Put(prev, key, v)[i] != (key, v) {
            var i' :| 0 <= i' < |prev| && prev[i'] == Put(prev, key, v)[i];
          }
        }
      }
    }
  }

  /** Every collected entry is a section's key with what that section contributes. */
  lemma {:induction false} CollectedFrom(sections: Dict<string, Section>)
    ensures forall i :: 0 <= i < |Collected(sections)| ==> CollectedFromSection(sections, Collected(sections)[i])
    decreases |sections|
  {
    if sections != [] {
      var n := |sections| - 1;
      var init := sections[..n];
      var key := sections[n].0;
      var section := sections[n].1;
      CollectedFrom(init);
      var prev := Collected(init);
      var r := Collected(sections);
      if SectionValue(section).Some? {
        var v := SectionValue(section).value;
        assert r == Put(prev, key, v);
        PutPairs(prev, key, v);
      } else {
        assert r == prev;
      }
      forall i | 0 <= i < |r| ensures CollectedFromSection(sections, r[i]) {
        if SectionValue(section).Some? && r[i] == (key, SectionValue(section).value) {
          assert sections[n].0 == r[i].0 && SectionValue(sections[n].1) == Some(r[i].1);
        } else {
          var i' :| 0 <= i' < |prev| && prev[i'] == r[i];
          assert CollectedFromSection(init, prev[i']);
          var j :| 0 <= j < |init| && init[j].0 == prev[i'].0 && SectionValue(init[j].1) == Some(prev[i'].1);
          assert sections[j] == init[j];
        }
      }
    }
  }

  /** The entry is some section's key paired with what that section contributes. */
  ghost predicate CollectedFromSection(sections: Dict<string, Section>, e: (string, string))
  {
    exists j :: 0 <= j < |sections| && sections[j].0 == e.0 && SectionValue(sections[j].1) == Some(e.1)
  }

  /** The collection is empty exactly when no section contributes. */
  lemma {:induction false} CollectedEmpty(sections: Dict<string, Section>)
    ensures Collected(sections) == [] <==> forall j :: 0 <= j < |sections| ==> SectionValue(sections[j].1).None?
    decreases |sections|
  {
    if sections != [] {
      var n := |sections| - 1;
      var init := sections[..n];
      CollectedEmpty(init);
      assert forall j :: 0 <= j < n ==> init[j] == sections[j];
      if SectionValue(sections[n].1).Some? {
        PutPairs(Collected(init), sections[n].0, SectionValue(sections[n].1).value);
      }
    }
  }

  /** With distinct section keys, each section's entry is exactly what it contributes. */
  lemma {:induction false} CollectedGet(sections: Dict<string, Section>, j: nat)
    requires DistinctKeys(sections) && j < |sections|
    ensures Get(Collected(sections), sections[j].0) == SectionValue(sections[j].1)
    decreases |sections|
  {
    var n := |sections| - 1;
    var init := sections[..n];
    var (key, section) := sections[n];
    var prev := Collected(init);
    assert Keys(init) == Keys(sections)[..n];
    if j < n {
      assert init[j] == sections[j];
      CollectedGet(init, j);
      assert Keys(sections)[j] == sections[j].0 && Keys(sections)[n] == key;
      if SectionValue(section).Some? {
        PutGet(prev, key, SectionValue(section).value, sections[j].0);
      }
    } else {
      CollectedAbsent(init, key);
      if SectionValue(section).Some? {
        PutGet(prev, key, SectionValue(section).value, key);
      }
    }
  }

  /** A key no section carries is not collected. */
  lemma {:induction false} CollectedAbsent(sections: Dict<string, Section>, key: string)
    requires forall j :: 0 <= j < |sections| ==> sections[j].0 != key
    ensures Get(Collected(sections), key) == None
    decreases |sections|
  {
    if sections != [] {
      var init := sections[..|sections| - 1];
      var (k, section) := sections[|sections| - 1];
      assert forall j :: 0 <= j < |init| ==> init[j] == sections[j];
      CollectedAbsent(init, key);
      if SectionValue(section).Some? {
        PutGet(Collected(init), k, SectionValue(section).value, key);
      }
    }
  }

  // ---------------------------------------------------------------- section rebuild

  /** The fresh checkboxes of a rebuilt section: `skill_vars[skill] = BooleanVar()` for each shown skill, unticked. */
  function Unticked(shown: seq<string>): Dict<string, bool>
    decreases |shown|
  {
    if shown == [] then [] else Put(Unticked(shown[..|shown| - 1]), shown[|shown| - 1], false)
  }

  /** The rebuilt boxes are exactly the shown skills, none ticked, and in the shown order when that is ascending. */
  lemma UntickedSpec(shown: seq<string>)
    ensures forall i :: 0 <= i < |Unticked(shown)| ==> !Unticked(shown)[i].1
    ensures forall s :: HasKey(Unticked(shown), s) <==> s in shown
    ensures StringOrder.Sorted(shown) ==> Keys(Unticked(shown)) == shown
  {
    UntickedNone(shown);
    forall s ensures HasKey(Unticked(shown), s) <==> s in shown {
      UntickedHasKey(shown, s);
    }
    if StringOrder.Sorted(shown) {
      UntickedKeys(shown);
    }
  }

  lemma {:induction false} UntickedNone(shown: seq<string>)
    ensures forall i :: 0 <= i < |Unticked(shown)| ==> !Unticked(shown)[i].1
    decreases |shown|
  {
    if shown != [] {
      var init := shown[..|shown| - 1];
      UntickedNone(init);
      PutPairs(Unticked(init), shown[|shown| - 1], false);
    }
  }

  lemma {:induction false} UntickedHasKey(shown: seq<string>, s: string)
    ensures HasKey(Unticked(shown), s) <==> s in shown
    decreases |shown|
  {
    if shown != [] {
      var init := shown[..|shown| - 1];
      UntickedHasKey(init, s);
      PutHasKey(Unticked(init), shown[|shown| - 1], false, s);
      assert shown == init + [shown[|shown| - 1]];
    }
  }

  lemma {:induction false} UntickedKeys(shown: seq<string>)
    requires StringOrder.Sorted(shown)
    ensures Keys(Unticked(shown)) == shown
    decreases |shown|
  {
    if shown != [] {
      var n := |shown| - 1;
      var init := shown[..n];
      var last := shown[n];
      assert StringOrder.Sorted(init);
      UntickedKeys(init);
      UntickedHasKey(init, last);
      if last in init {
        var j :| 0 <= j < n && init[j] == last;
        assert StringOrder.Less(shown[j], shown[n]);
        StringOrder.LessIrreflexive(last);
      }
      PutKeys(Unticked(init), last, false);
      assert shown == init + [last];
    }
  }

  /** _update_skill_sections on one section: the entered name is kept and the boxes are replaced. */
  function Rebuild(section: Section, shown: seq<string>): Section
  {
    Section(section.categoryName, Unticked(shown))
  }

  /**
   * After a rebuild the section shows exactly the given skills, ascending
   * when they are, with nothing ticked: its label reads 0 and it contributes
   * nothing to the collection.
   */
  lemma RebuildSpec(section: Section, shown: seq<string>)
    ensures forall s :: HasKey(Rebuild(section, shown).skillVars, s) <==> s in shown
    ensures StringOrder.Sorted(shown) ==> Keys(Rebuild(section, shown).skillVars) == shown
    ensures Checked(Rebuild(section, shown).skillVars) == []
    ensures CharCount(Rebuild(section, shown)) == CountLabel(0, Black)
    ensures SectionValue(Rebuild(section, shown)).None?
  {
    UntickedSpec(shown);
    CheckedEmpty(Unticked(shown));
  }

  /** Sections with nothing ticked collect nothing. */
  lemma UntickedCollectNothing(sections: Dict<string, Section>)
    requires forall j :: 0 <= j < |sections| ==> Checked(sections[j].1.skillVars) == []
    ensures Collected(sections) == []
  {
    CollectedEmpty(sections);
  }

  /** Every section of `sections` is the rebuild of the same section of `before`, under the same key. */
  ghost predicate RebuiltFrom(sections: Dict<string, Section>, before: Dict<string, Section>, shown: seq<string>)
  {
    && |sections| == |before|
    && forall j :: 0 <= j < |sections| ==> sections[j] == (before[j].0, Rebuild(before[j].1, shown))
  }

  /** Rebuilt sections collect nothing. */
  lemma RebuiltCollectNothing(sections: Dict<string, Section>, before: Dict<string, Section>, shown: seq<string>)
    requires RebuiltFrom(sections, before, shown)
    ensures Collected(sections) == []
  {
    forall j | 0 <= j < |sections| ensures Checked(sections[j].1.skillVars) == [] {
      RebuildSpec(before[j].1, shown);
    }
    UntickedCollectNothing(sections);
  }

  // ---------------------------------------------------------------- character count label

  datatype CountLabel = CountLabel(count: nat, colour: Colour)

  /** _update_section_char_count: the formatted length, coloured red over 50, orange over 45, green otherwise; 0 in black when there is nothing to format. */
  function CharCount(section: Section): (r: CountLabel)
    ensures r.colour == Black <==> Strip(section.categoryName) == [] || Checked(section.skillVars) == []
    ensures r.colour == Black ==> r.count == 0
    ensures r.colour != Black ==> r.count == |Skills.FormatSkill(Strip(section.categoryName), Checked(section.skillVars))|
    ensures r.colour == Red <==> r.colour != Black && r.count > CharLimit
    ensures r.colour == Orange <==> r.colour != Black && WarnLimit < r.count <= CharLimit
    ensures r.colour == Green <==> r.colour != Black && r.count <= WarnLimit
  {
    var category := Strip(section.categoryName);
    var checked := Checked(section.skillVars);
    if category != [] && checked != [] then
      var n := |Skills.FormatSkill(category, checked)|;
      CountLabel(n, if n > CharLimit then Red else if n > WarnLimit then Orange else Green)
    else CountLabel(0, Black)
  }

  /** A section is collected exactly when its label is green or orange, and then its value has the label's count. */
  lemma CollectedIffLabel(section: Section)
    ensures SectionValue(section).Some? <==> CharCount(section).colour in {Green, Orange}
    ensures SectionValue(section).Some? ==> |SectionValue(section).value| == CharCount(section).count
  {
  }

  // ---------------------------------------------------------------- the panel

  class SkillsSelectionPanel {
    const app: Application.ResumeBuilderApp
    var categoryVars: Dict<string, bool>
    var skillSections: Dict<string, Section>

    constructor (app: Application.ResumeBuilderApp)
      ensures this.app == app && categoryVars == [] && skillSections == []
    {
      this.app := app;
      categoryVars := [];
      skillSections := [];
    }

    /**
     * _update_filtered_skills: the ticked categories, the skills under them,
     * then the rebuild of every section over those skills, which clears all
     * ticks.
     */
    method UpdateFilteredSkills()
      modifies app`selectedCategories, app`filteredSkills, this`skillSections
      ensures app.selectedCategories == TickedCategories(categoryVars)
      ensures app.filteredSkills == Filtered(app.skillsData, app.selectedCategories)
      ensures RebuiltFrom(skillSections, old(skillSections), StringOrder.Sort(Keys(app.filteredSkills)))
      ensures Collected(skillSections) == []
    {
      var selected := TickedCategories(categoryVars);
      var skills := app.skillsData;
      var filtered: Dict<string, seq<string>> := [];
      var i := 0;
      while i < |skills|
        invariant 0 <= i <= |skills|
        invariant filtered == Filtered(skills[..i], selected)
        invariant skillSections == old(skillSections)
      {
        FilteredAt(skills, selected, i);
        var (skill, categories) := skills[i];
        if InSome(categories, selected) {
          filtered := Put(filtered, skill, categories);
        }
        i := i + 1;
      }
      assert skills[..i] == skills;
      app.selectedCategories := selected;
      app.filteredSkills := filtered;
      UpdateSkillSections();
      RebuiltCollectNothing(skillSections, old(skillSections), StringOrder.Sort(Keys(app.filteredSkills)));
    }

    /** _create_skill_sections: sections SKILL_1..SKILL_4 with no name and no boxes, then the rebuild. */
    method CreateSkillSections()
      modifies this`skillSections
      ensures Keys(skillSections) == [TemplateKeys.SkillKey(1), TemplateKeys.SkillKey(2), TemplateKeys.SkillKey(3), TemplateKeys.SkillKey(4)]
      ensures forall j :: 0 <= j < |skillSections| ==>
        skillSections[j].1 == Rebuild(Section("", []), StringOrder.Sort(Keys(app.filteredSkills)))
      ensures Collected(skillSections) == []
    {
      var sections: Dict<string, Section> := [];
      var i := 0;
      while i < 4
        invariant 0 <= i <= 4 && |sections| == i
        invariant forall j :: 0 <= j < i ==> sections[j] == (TemplateKeys.SkillKey(j + 1), Section("", []))
      {
        sections := sections + [(TemplateKeys.SkillKey(i + 1), Section("", []))];
        i := i + 1;
      }
      skillSections := sections;
      UpdateSkillSections();
      RebuiltCollectNothing(skillSections, sections, StringOrder.Sort(Keys(app.filteredSkills)));
    }

    /**
     * _update_skill_sections: every section keeps its key and entered name
     * and gets one fresh, unticked box per filtered skill, in ascending order.
     */
    method UpdateSkillSections()
      modifies this`skillSections
      ensures RebuiltFrom(skillSections, old(skillSections), StringOrder.Sort(Keys(app.filteredSkills)))
    {
      ghost var shown := StringOrder.Sort(Keys(app.filteredSkills));
      var i := 0;
      while i < |skillSections|
        invariant 0 <= i <= |skillSections| == |old(skillSections)|
        invariant forall j :: 0 <= j < i ==> skillSections[j] == (old(skillSections)[j].0, Rebuild(old(skillSections)[j].1, shown))
        invariant forall j :: i <= j < |skillSections| ==> skillSections[j] == old(skillSections)[j]
      {
        var (sectionKey, section) := skillSections[i];
        var vars: Dict<string, bool> := [];
        if app.filteredSkills != [] {
          var sortedSkills := StringOrder.Sort(Keys(app.filteredSkills));
          var k := 0;
          while k < |sortedSkills|
            invariant 0 <= k <= |sortedSkills|
            invariant vars == Unticked(sortedSkills[..k])
          {
            assert sortedSkills[..k + 1][..k] == sortedSkills[..k];
            vars := Put(vars, sortedSkills[k], false);
            k := k + 1;
          }
          assert sortedSkills[..k] == sortedSkills;
        }
        skillSections := skillSections[i := (sectionKey, Section(section.categoryName, vars))];
        i := i + 1;
      }
    }

    /** _collect_selected_skills: clear, then add each contributing section. */
    method CollectSelectedSkills()
      modifies app`selectedSkills
      ensures app.selectedSkills == Collected(skillSections)
    {
      app.selectedSkills := [];
      var sections := skillSections;
      var i := 0;
      while i < |sections|
        invariant 0 <= i <= |sections|
        invariant app.selectedSkills == Collected(sections[..i])
      {
        CollectedAt(sections, i);
        var (skillKey, section) := sections[i];
        var categoryName := Strip(section.categoryName);
        var selectedSkills := Checked(section.skillVars);
        if categoryName != [] && selectedSkills != [] {
          var formatted := Skills.FormatSkill(categoryName, selectedSkills);
          if |formatted| <= CharLimit {
            app.selectedSkills := Put(app.selectedSkills, skillKey, formatted);
          }
        }
        i := i + 1;
      }
      assert sections[..i] == sections;
    }

    /** validate: collect, refuse an empty collection, then the length check, which collection has made unreachable. */
    method Validate() returns (ok: bool)
      modifies app`selectedSkills
      ensures app.selectedSkills == Collected(skillSections)
      ensures ok <==> app.selectedSkills != []
    {
      CollectSelectedSkills();
      if app.selectedSkills == [] {
        return false;
      }
      CollectedBound(skillSections);
      var skills := app.selectedSkills;
      var i := 0;
      while i < |skills|
        invariant 0 <= i <= |skills|
      {
        if |skills[i].1| > CharLimit {
          assert false;
          return false;
        }
        i := i + 1;
      }
      return true;
    }
  }
}
