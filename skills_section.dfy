/**
 * The review panel's skills list: parsing "Category [a, b]" back into its
 * parts, dragging whole groups (40-pixel threshold) or single skills within
 * a group (20-pixel threshold), and rebuilding the selected-skills map from
 * the new order.
 */
module SkillsSection {
  import opened Wrappers
  import opened Text
  import opened Assoc
  import opened Records
  import opened Reorder
  import Skills
  import Application

  const GroupThreshold := 40
  const SkillThreshold := 20

  // ---------------------------------------------------------------- parse_skill_value

  datatype ParsedSkill = ParsedSkill(category: string, skills: seq<string>)

  /** `.` in a regular expression matches every character but a newline. */
  predicate NoNewline(s: string)
  {
    '\n' !in s
  }

  /** Where `\s*` starting at g stops. */
  function SpaceEnd(t: string, g: nat): (p: nat)
    requires g <= |t|
    ensures g <= p <= |t|
  {
    g + SkipLeft(t[g..], IsSpace)
  }

  /**
   * `^(.+?)\s*\[(.+?)\]$` matches t with the first group t[..g]: the
   * whitespace after it is followed by "[", a non-empty second group and the
   * final "]", and neither group holds a newline.
   */
  predicate MatchAt(t: string, g: nat)
  {
    && 1 <= g <= |t| && NoNewline(t[..g])
    && var p := SpaceEnd(t, g);
       p + 2 < |t| && t[p] == '[' && t[|t| - 1] == ']' && NoNewline(t[p + 1..|t| - 1])
  }

  /** The lazy first group: the shortest one, from length g on, with which the pattern matches. */
  function FirstMatch(t: string, g: nat): (r: Option<nat>)
    ensures r.Some? ==> g <= r.value && MatchAt(t, r.value)
    decreases |t| + 1 - g
  {
    if g > |t| then None
    else if MatchAt(t, g) then Some(g)
    else FirstMatch(t, g + 1)
  }

  lemma {:induction false} FirstMatchSpec(t: string, g: nat)
    ensures var r := FirstMatch(t, g);
      && (r.Some? ==> forall h :: g <= h < r.value ==> !MatchAt(t, h))
      && (r.None? ==> forall h :: g <= h ==> !MatchAt(t, h))
    decreases |t| + 1 - g
  {
    var r := FirstMatch(t, g);
    if g > |t| {
      forall h | g <= h ensures !MatchAt(t, h) {
        assert h > |t|;
      }
    } else if !MatchAt(t, g) {
      FirstMatchSpec(t, g + 1);
      assert r == FirstMatch(t, g + 1);
      forall h | g <= h && (r.None? || h < r.value) ensures !MatchAt(t, h) {
        if h == g {
        } else {
          assert g + 1 <= h;
        }
      }
    }
  }

  /** [s.strip() for s in xs]. */
  function StripAll(xs: seq<string>): (r: seq<string>)
    ensures |r| == |xs|
    ensures forall i :: 0 <= i < |xs| ==> r[i] == Strip(xs[i])
  {
    if xs == [] then [] else [Strip(xs[0])] + StripAll(xs[1..])
  }

  /** parse_skill_value: the stripped category and comma-split stripped skills, or the value as it is and no skills. */
  function ParseSkillValue(value: string): ParsedSkill
  {
    var t := Strip(value);
    match FirstMatch(t, 1)
    case Some(g) =>
      var p := SpaceEnd(t, g);
      ParsedSkill(Strip(t[..g]), StripAll(Split(Strip(t[p + 1..|t| - 1]), ',')))
    case None => ParsedSkill(value, [])
  }

  /** A match gives a stripped category and at least one skill, each stripped and comma-free. */
  lemma ParseSkillMatched(value: string)
    requires FirstMatch(Strip(value), 1).Some?
    ensures var r := ParseSkillValue(value);
      && IsStripped(r.category) && |r.skills| >= 1
      && forall i :: 0 <= i < |r.skills| ==> IsStripped(r.skills[i]) && ',' !in r.skills[i]
  {
    var t := Strip(value);
    var g := FirstMatch(t, 1).value;
    StripFix(t[..g]);
    var pieces := Split(Strip(t[SpaceEnd(t, g) + 1..|t| - 1]), ',');
    forall i | 0 <= i < |pieces| ensures IsStripped(Strip(pieces[i])) && ',' !in Strip(pieces[i]) {
      StrippedPiece(pieces[i]);
    }
  }

  /** A stripped piece is stripped and holds no character the piece lacks. */
  lemma StrippedPiece(p: string)
    ensures IsStripped(Strip(p)) && (',' !in p ==> ',' !in Strip(p))
  {
    StripFix(p);
    StripSubstring(p);
  }

  lemma StripSubstring(s: string)
    ensures forall c :: c in Strip(s) ==> c in s
  {
    var a := SkipLeft(s, IsSpace);
    var t := s[a..];
    forall c | c in Strip(s) ensures c in s {
      var i :| 0 <= i < |Strip(s)| && Strip(s)[i] == c;
      assert t[i] == c;
      assert s[a + i] == c;
    }
  }

  /** A value that after stripping does not end in "]" is returned unparsed with no skills. */
  lemma ParseSkillUnmatched(value: string)
    requires Strip(value) == [] || Strip(value)[|Strip(value)| - 1] != ']'
    ensures ParseSkillValue(value) == ParsedSkill(value, [])
  {
    FirstMatchSpec(Strip(value), 1);
  }

  /** The conditions under which formatting a skill group can be parsed back. */
  predicate Reparsable(category: string, skills: seq<string>)
  {
    && category != [] && IsStripped(category) && '[' !in category && NoNewline(category)
    && skills != []
    && forall i :: 0 <= i < |skills| ==> skills[i] != [] && IsStripped(skills[i]) && ',' !in skills[i] && NoNewline(skills[i])
  }

  lemma {:induction false} JoinNoNewline(skills: seq<string>)
    requires forall i :: 0 <= i < |skills| ==> NoNewline(skills[i])
    ensures NoNewline(Join(skills, ", "))
    decreases |skills|
  {
    if |skills| > 1 {
      JoinNoNewline(skills[1..]);
    }
  }

  lemma {:induction false} JoinEnds(skills: seq<string>)
    requires skills != [] && forall i :: 0 <= i < |skills| ==> skills[i] != []
    ensures var j := Join(skills, ", ");
      j != [] && j[0] == skills[0][0] && j[|j| - 1] == skills[|skills| - 1][|skills[|skills| - 1]| - 1]
    decreases |skills|
  {
    if |skills| > 1 {
      JoinEnds(skills[1..]);
    }
  }

  /** No first group shorter than a '['-free stripped category can be followed by "[". */
  lemma NoEarlyMatch(category: string, rest: string, g: nat)
    requires category != [] && IsStripped(category) && '[' !in category
    requires 1 <= g < |category|
    ensures !MatchAt(category + rest, g)
  {
    var t := category + rest;
    var k := SkipLeft(t[g..], IsSpace);
    var last := |category| - 1 - g;
    assert t[g..][last] == category[|category| - 1];
    assert k <= last;
    assert t[g + k] == category[g + k];
  }

  /** The template form is stripped, and the lazy first group is exactly the category. */
  lemma FormatMatch(category: string, skills: seq<string>)
    requires Reparsable(category, skills)
    ensures var v := Skills.FormatSkill(category, skills);
      && Strip(v) == v && FirstMatch(v, 1) == Some(|category|) && SpaceEnd(v, |category|) == |category| + 1
      && v[..|category|] == category && v[|category| + 2..|v| - 1] == Join(skills, ", ")
  {
    var v := Skills.FormatSkill(category, skills);
    var n := |category|;
    FormatShape(category, skills);
    forall h | 1 <= h < n ensures !MatchAt(v, h) {
      NoEarlyMatch(category, " [" + Join(skills, ", ") + "]", h);
    }
    FirstMatchSpec(v, 1);
  }

  /** The template form is the category, " [", the joined skills and "]", and the pattern matches with the category as first group. */
  lemma FormatShape(category: string, skills: seq<string>)
    requires Reparsable(category, skills)
    ensures var v := Skills.FormatSkill(category, skills);
      && v == category + (" [" + Join(skills, ", ") + "]")
      && Strip(v) == v && MatchAt(v, |category|) && SpaceEnd(v, |category|) == |category| + 1
      && v[..|category|] == category && v[|category| + 2..|v| - 1] == Join(skills, ", ")
  {
    var j := Join(skills, ", ");
    assert Skills.FormatSkill(category, skills) == category + (" [" + j + "]");
    JoinEnds(skills);
    JoinNoNewline(skills);
    BracketedShape(category, j);
  }

  /** `c [j]` for a stripped single-line c and a non-empty single-line j: stripped, and matched with first group c. */
  lemma BracketedShape(c: string, j: string)
    requires c != [] && IsStripped(c) && NoNewline(c) && j != [] && NoNewline(j)
    ensures var v := c + (" [" + j + "]");
      && Strip(v) == v && MatchAt(v, |c|) && SpaceEnd(v, |c|) == |c| + 1
      && v[..|c|] == c && v[|c| + 2..|v| - 1] == j
  {
    var v := c + (" [" + j + "]");
    assert Strip(v) == v by {
      assert v[0] == c[0] && v[|v| - 1] == ']';
      StripFix(v);
    }
    BracketedMatch(c, j);
  }

  /** After c come a space and "[", so the whitespace run ends there and the pattern matches with c as its first group. */
  lemma BracketedMatch(c: string, j: string)
    requires c != [] && NoNewline(c) && j != [] && NoNewline(j)
    ensures var v := c + (" [" + j + "]");
      && MatchAt(v, |c|) && SpaceEnd(v, |c|) == |c| + 1
      && v[..|c|] == c && v[|c| + 2..|v| - 1] == j
  {
    var v := c + (" [" + j + "]");
    var n := |c|;
    assert v[..n] == c;
    assert v[n + 2..|v| - 1] == j;
    var tail := v[n..];
    assert tail[0] == ' ' && tail[1] == '[';
    SkipLeftIs(tail, IsSpace, 1);
  }

  /** The second group splits back into the skills. */
  lemma SplitFormatted(skills: seq<string>)
    requires skills != []
    requires forall i :: 0 <= i < |skills| ==> skills[i] != [] && IsStripped(skills[i]) && ',' !in skills[i]
    ensures StripAll(Split(Strip(Join(skills, ", ")), ',')) == skills
  {
    JoinStripped(skills);
    SplitJoinComma(skills);
    StripPieces(skills, Split(Join(skills, ", "), ','));
  }

  lemma JoinStripped(skills: seq<string>)
    requires skills != []
    requires forall i :: 0 <= i < |skills| ==> skills[i] != [] && IsStripped(skills[i])
    ensures Strip(Join(skills, ", ")) == Join(skills, ", ")
  {
    var j := Join(skills, ", ");
    JoinEnds(skills);
    assert !IsSpace(skills[0][0]) && !IsSpace(skills[|skills| - 1][|skills[|skills| - 1]| - 1]);
    assert IsStripped(j);
    StripFix(j);
  }

  lemma SplitJoinComma(skills: seq<string>)
    requires skills != []
    requires forall i :: 0 <= i < |skills| ==> ',' !in skills[i]
    ensures var pieces := Split(Join(skills, ", "), ',');
      && |pieces| == |skills| && pieces[0] == skills[0]
      && forall i :: 1 <= i < |skills| ==> pieces[i] == " " + skills[i]
  {
    var sep := [','] + " ";
    assert sep == ", " by {
      assert |sep| == 2 && sep[0] == ',' && sep[1] == ' ';
    }
    SplitJoinWide(skills, ',', " ");
  }

  lemma StripPieces(skills: seq<string>, pieces: seq<string>)
    requires |pieces| == |skills| >= 1 && pieces[0] == skills[0]
    requires forall i :: 1 <= i < |skills| ==> pieces[i] == " " + skills[i]
    requires forall i :: 0 <= i < |skills| ==> IsStripped(skills[i])
    ensures StripAll(pieces) == skills
  {
    var r := StripAll(pieces);
    forall i | 0 <= i < |skills| ensures r[i] == skills[i] {
      StripPiece(pieces[i], skills[i], i == 0);
    }
  }

  /** The first piece is the skill itself, every later one the skill after a space. */
  lemma StripPiece(piece: string, skill: string, first: bool)
    requires piece == if first then skill else " " + skill
    requires IsStripped(skill)
    ensures Strip(piece) == skill
  {
    if first {
      StripFix(skill);
    } else {
      StripPadded(" ", skill);
    }
  }

  /**
   * Round trip: parsing the template form of a category and its skills gives
   * them back, when the category is non-empty, stripped and free of "[", and
   * every skill is non-empty, stripped and free of commas (neither holding a
   * newline).
   */
  lemma ParseFormatRoundTrip(category: string, skills: seq<string>)
    requires Reparsable(category, skills)
    ensures ParseSkillValue(Skills.FormatSkill(category, skills)) == ParsedSkill(category, skills)
  {
    FormatMatch(category, skills);
    StripFix(category);
    SplitFormatted(skills);
  }

  // ---------------------------------------------------------------- selected skills from the order

  /** _update_selected_skills_from_ordered: clear, then assign every ordered skill's value under its key. */
  function SelectedFrom(ordered: seq<OrderedSkill>): Dict<string, string>
    decreases |ordered|
  {
    if ordered == [] then []
    else
      var last := ordered[|ordered| - 1];
      Put(SelectedFrom(ordered[..|ordered| - 1]), last.key, last.value)
  }

  lemma SelectedFromAt(ordered: seq<OrderedSkill>, i: nat)
    requires i < |ordered|
    ensures SelectedFrom(ordered[..i + 1]) == Put(SelectedFrom(ordered[..i]), ordered[i].key, ordered[i].value)
  {
    var r := ordered[..i + 1];
    assert r[..|r| - 1] == ordered[..i];
  }

  /** Some ordered skill has key k. */
  predicate KeyOrdered(ordered: seq<OrderedSkill>, k: string)
  {
    exists i :: 0 <= i < |ordered| && ordered[i].key == k
  }

  /** Rebuilding never stores a key twice. */
  lemma {:induction false} SelectedFromDistinct(ordered: seq<OrderedSkill>)
    ensures DistinctKeys(SelectedFrom(ordered))
    decreases |ordered|
  {
    if ordered != [] {
      var last := ordered[|ordered| - 1];
      SelectedFromDistinct(ordered[..|ordered| - 1]);
      PutSpec(SelectedFrom(ordered[..|ordered| - 1]), last.key, last.value);
    }
  }

  /** The rebuilt map has exactly the ordered skills' keys. */
  lemma {:induction false} SelectedFromKeys(ordered: seq<OrderedSkill>, k: string)
    ensures HasKey(SelectedFrom(ordered), k) <==> KeyOrdered(ordered, k)
    decreases |ordered|
  {
    if ordered != [] {
      var n := |ordered| - 1;
      var init := ordered[..n];
      var last := ordered[n];
      SelectedFromKeys(init, k);
      PutHasKey(SelectedFrom(init), last.key, last.value, k);
      if KeyOrdered(ordered, k) && last.key != k {
        var i :| 0 <= i < |ordered| && ordered[i].key == k;
        assert init[i] == ordered[i];
      }
      if KeyOrdered(init, k) {
        var i :| 0 <= i < |init| && init[i].key == k;
        assert ordered[i] == init[i];
      }
    }
  }

  /** Under each key the rebuilt map holds the value of the last ordered skill with that key. */
  lemma {:induction false} SelectedFromLast(ordered: seq<OrderedSkill>, i: nat)
    requires i < |ordered|
    requires forall j :: i < j < |ordered| ==> ordered[j].key != ordered[i].key
    ensures Get(SelectedFrom(ordered), ordered[i].key) == Some(ordered[i].value)
    decreases |ordered|
  {
    var n := |ordered| - 1;
    var init := ordered[..n];
    var last := ordered[n];
    PutGet(SelectedFrom(init), last.key, last.value, ordered[i].key);
    if i < n {
      assert init[i] == ordered[i];
      assert forall j :: i < j < |init| ==> init[j] == ordered[j];
      SelectedFromLast(init, i);
    }
  }

  // ---------------------------------------------------------------- drags

  /** What _start_skill_group_drag and _start_individual_skill_drag record. */
  datatype SkillDrag =
    | GroupDrag(index: int, startY: int)
    | IndividualDrag(groupIndex: int, skillIndex: int, startY: int)

  /** The group move can pop without an IndexError. */
  predicate CanGroupDrop(ordered: seq<OrderedSkill>, drag: Option<SkillDrag>, yRoot: int, index: int)
  {
    drag.Some? && drag.value.GroupDrag? && FarEnough(yRoot - drag.value.startY, GroupThreshold) ==>
      0 <= index && (StepTarget(index, |ordered|, yRoot - drag.value.startY) != index ==> index < |ordered|)
  }

  /** Whether a group drag end moves something. */
  predicate GroupMoves(ordered: seq<OrderedSkill>, drag: Option<SkillDrag>, yRoot: int, index: int)
  {
    && drag.Some? && drag.value.GroupDrag? && FarEnough(yRoot - drag.value.startY, GroupThreshold)
    && StepTarget(index, |ordered|, yRoot - drag.value.startY) != index
  }

  /** What _end_skill_group_drag does to the ordered skills. */
  function GroupDrop(ordered: seq<OrderedSkill>, drag: Option<SkillDrag>, yRoot: int, index: int): seq<OrderedSkill>
    requires CanGroupDrop(ordered, drag, yRoot, index)
  {
    if GroupMoves(ordered, drag, yRoot, index) then
      StepTargetSpec(index, |ordered|, yRoot - drag.value.startY);
      Move(ordered, index, StepTarget(index, |ordered|, yRoot - drag.value.startY))
    else ordered
  }

  /**
   * A group drag moves the group one slot in the drag direction within the
   * list bounds and keeps the groups a permutation; one that is too short,
   * of the wrong kind or not recorded changes nothing.
   */
  lemma GroupDropSpec(ordered: seq<OrderedSkill>, drag: Option<SkillDrag>, yRoot: int, index: int)
    requires CanGroupDrop(ordered, drag, yRoot, index)
    ensures var r := GroupDrop(ordered, drag, yRoot, index);
      && |r| == |ordered| && multiset(r) == multiset(ordered)
      && (GroupMoves(ordered, drag, yRoot, index) ==>
            var t := StepTarget(index, |ordered|, yRoot - drag.value.startY);
            && (t == index + 1 || t == index - 1) && 0 <= t < |ordered|
            && r[t] == ordered[index] && Remove(r, t) == Remove(ordered, index))
      && (!GroupMoves(ordered, drag, yRoot, index) ==> r == ordered)
  {
    if GroupMoves(ordered, drag, yRoot, index) {
      var t := StepTarget(index, |ordered|, yRoot - drag.value.startY);
      StepTargetSpec(index, |ordered|, yRoot - drag.value.startY);
      MoveSpec(ordered, index, t);
    }
  }

  /**
   * The widget's indices as captured when it was built: the group index is
   * a group of the list (groups are only ever permuted) and the skill index
   * is not negative. The skill index may be past the end of the group it
   * now names, after a group drag that did not rebuild the widgets.
   */
  predicate CanSkillDrop(ordered: seq<OrderedSkill>, drag: Option<SkillDrag>, yRoot: int, group: int, index: int)
  {
    drag.Some? && drag.value.IndividualDrag? && FarEnough(yRoot - drag.value.startY, SkillThreshold) ==>
      0 <= group < |ordered| && 0 <= index
  }

  /** A long enough single-skill drag whose one-slot step lands on another index. */
  predicate SkillSteps(ordered: seq<OrderedSkill>, drag: Option<SkillDrag>, yRoot: int, group: int, index: int)
  {
    && drag.Some? && drag.value.IndividualDrag? && FarEnough(yRoot - drag.value.startY, SkillThreshold)
    && 0 <= group < |ordered|
    && StepTarget(index, |ordered[group].skills|, yRoot - drag.value.startY) != index
  }

  /** The step names a skill the group no longer has: `skills.pop(skill_index)` raises IndexError. */
  predicate SkillStale(ordered: seq<OrderedSkill>, drag: Option<SkillDrag>, yRoot: int, group: int, index: int)
  {
    SkillSteps(ordered, drag, yRoot, group, index) && index >= |ordered[group].skills|
  }

  /** The step moves a skill of the group: the case that reorders and calls on_reorder. */
  predicate SkillMoves(ordered: seq<OrderedSkill>, drag: Option<SkillDrag>, yRoot: int, group: int, index: int)
  {
    SkillSteps(ordered, drag, yRoot, group, index) && index < |ordered[group].skills|
  }

  /**
   * A stale skill index is reachable: with groups of three skills and of one
   * skill, a long downward group drag of the first swaps them, and a
   * 25-pixel upward drag of the widget still holding (0, 2) steps to slot 0
   * of a one-skill group, so the pop raises.
   */
  lemma StaleAfterGroupDrag(g0: OrderedSkill, g1: OrderedSkill)
    requires |g0.skills| == 3 && |g1.skills| == 1
    ensures var swapped := GroupDrop([g0, g1], Some(GroupDrag(0, 0)), 41, 0);
      && swapped == [g1, g0]
      && CanSkillDrop(swapped, Some(IndividualDrag(0, 2, 100)), 75, 0, 2)
      && SkillStale(swapped, Some(IndividualDrag(0, 2, 100)), 75, 0, 2)
  {
    var ordered := [g0, g1];
    assert GroupMoves(ordered, Some(GroupDrag(0, 0)), 41, 0);
    assert StepTarget(0, 2, 41) == 1;
    MoveSpec(ordered, 0, 1);
    var swapped := GroupDrop(ordered, Some(GroupDrag(0, 0)), 41, 0);
    assert swapped[1] == g0 && Remove(swapped, 1) == Remove(ordered, 0);
    assert Remove(ordered, 0) == [g1];
    assert swapped == [g1, g0] by {
      assert |swapped| == 2;
      assert swapped[0] == Remove(swapped, 1)[0];
    }
    assert StepTarget(2, 1, 75 - 100) == 0;
  }

  /** What _end_individual_skill_drag does: move the skill within its group and rebuild that group's value. */
  function SkillDrop(ordered: seq<OrderedSkill>, drag: Option<SkillDrag>, yRoot: int, group: int, index: int): seq<OrderedSkill>
    requires CanSkillDrop(ordered, drag, yRoot, group, index)
  {
    if SkillMoves(ordered, drag, yRoot, group, index) then
      var sd := ordered[group];
      var dy := yRoot - drag.value.startY;
      StepTargetSpec(index, |sd.skills|, dy);
      var moved := Move(sd.skills, index, StepTarget(index, |sd.skills|, dy));
      ordered[group := sd.(skills := moved, value := Skills.FormatSkill(sd.category, moved))]
    else ordered
  }

  /**
   * A single-skill drag changes only its own group: the skills are a
   * permutation with the dragged one a slot further, the value is the
   * template form of the new order (and parses back to it whenever the
   * group is reparsable), and key and category stay.
   */
  lemma SkillDropSpec(ordered: seq<OrderedSkill>, drag: Option<SkillDrag>, yRoot: int, group: int, index: int)
    requires CanSkillDrop(ordered, drag, yRoot, group, index)
    ensures var r := SkillDrop(ordered, drag, yRoot, group, index);
      && |r| == |ordered|
      && (forall i :: 0 <= i < |r| && i != group ==> r[i] == ordered[i])
      && (SkillMoves(ordered, drag, yRoot, group, index) ==>
            var before := ordered[group].skills;
            var t := StepTarget(index, |before|, yRoot - drag.value.startY);
            && r[group].key == ordered[group].key && r[group].category == ordered[group].category
            && |r[group].skills| == |before| && multiset(r[group].skills) == multiset(before)
            && r[group].skills[t] == before[index] && Remove(r[group].skills, t) == Remove(before, index)
            && r[group].value == Skills.FormatSkill(r[group].category, r[group].skills)
            && (Reparsable(ordered[group].category, before) ==>
                  ParseSkillValue(r[group].value) == ParsedSkill(r[group].category, r[group].skills)))
      && (!SkillMoves(ordered, drag, yRoot, group, index) ==> r == ordered)
      && (SkillStale(ordered, drag, yRoot, group, index) ==> r == ordered)
  {
    if SkillMoves(ordered, drag, yRoot, group, index) {
      var sd := ordered[group];
      var t := StepTarget(index, |sd.skills|, yRoot - drag.value.startY);
      StepTargetSpec(index, |sd.skills|, yRoot - drag.value.startY);
      SkillRegrouped(sd, index, t);
    }
  }

  /** The rebuilt group after moving skill `from` to slot `to`. */
  lemma SkillRegrouped(sd: OrderedSkill, from: nat, to: nat)
    requires from < |sd.skills| && to < |sd.skills|
    ensures var moved := Move(sd.skills, from, to);
      var r := sd.(skills := moved, value := Skills.FormatSkill(sd.category, moved));
      && r.key == sd.key && r.category == sd.category
      && |r.skills| == |sd.skills| && multiset(r.skills) == multiset(sd.skills)
      && r.skills[to] == sd.skills[from] && Remove(r.skills, to) == Remove(sd.skills, from)
      && r.value == Skills.FormatSkill(r.category, r.skills)
      && (Reparsable(sd.category, sd.skills) ==> ParseSkillValue(r.value) == ParsedSkill(r.category, r.skills))
  {
    MoveSpec(sd.skills, from, to);
    if Reparsable(sd.category, sd.skills) {
      MoveReparsable(sd.category, sd.skills, from, to);
      ParseFormatRoundTrip(sd.category, Move(sd.skills, from, to));
    }
  }

  /** Reordering the skills keeps a group reparsable. */
  lemma MoveReparsable(category: string, skills: seq<string>, from: nat, to: nat)
    requires Reparsable(category, skills) && from < |skills| && to < |skills|
    ensures Reparsable(category, Move(skills, from, to))
  {
    var moved := Move(skills, from, to);
    MoveSpec(skills, from, to);
    forall i | 0 <= i < |moved|
      ensures moved[i] != [] && IsStripped(moved[i]) && ',' !in moved[i] && NoNewline(moved[i])
    {
      assert moved[i] in multiset(skills);
      var k :| 0 <= k < |skills| && skills[k] == moved[i];
    }
  }

  class SkillsSection {
    const app: Application.ResumeBuilderApp
    var skillDragData: Option<SkillDrag>

    constructor (app: Application.ResumeBuilderApp)
      ensures this.app == app && skillDragData == None
    {
      this.app := app;
      skillDragData := None;
    }

    method StartSkillGroupDrag(yRoot: int, index: int)
      modifies this`skillDragData
      ensures skillDragData == Some(GroupDrag(index, yRoot))
    {
      skillDragData := Some(GroupDrag(index, yRoot));
    }

    method StartIndividualSkillDrag(yRoot: int, group: int, index: int)
      modifies this`skillDragData
      ensures skillDragData == Some(IndividualDrag(group, index, yRoot))
    {
      skillDragData := Some(IndividualDrag(group, index, yRoot));
    }

    /** _update_selected_skills_from_ordered. */
    method UpdateSelectedSkillsFromOrdered()
      modifies app`selectedSkills
      ensures app.selectedSkills == SelectedFrom(app.orderedSkills)
    {
      app.selectedSkills := [];
      var i := 0;
      while i < |app.orderedSkills|
        invariant 0 <= i <= |app.orderedSkills|
        invariant app.selectedSkills == SelectedFrom(app.orderedSkills[..i])
      {
        SelectedFromAt(app.orderedSkills, i);
        app.selectedSkills := Put(app.selectedSkills, app.orderedSkills[i].key, app.orderedSkills[i].value);
        i := i + 1;
      }
      assert app.orderedSkills[..i] == app.orderedSkills;
    }

    /**
     * _end_skill_group_drag: an end without a group drag recorded returns at
     * once and keeps whatever was recorded; otherwise the group may move, the
     * selected skills are rebuilt after a move, and the record is cleared.
     * `reordered` says whether on_reorder is called: exactly after a move.
     */
    method EndSkillGroupDrag(yRoot: int, index: int) returns (reordered: bool)
      requires CanGroupDrop(app.orderedSkills, skillDragData, yRoot, index)
      modifies this`skillDragData, app`orderedSkills, app`selectedSkills
      ensures app.orderedSkills == GroupDrop(old(app.orderedSkills), old(skillDragData), yRoot, index)
      ensures reordered <==> GroupMoves(old(app.orderedSkills), old(skillDragData), yRoot, index)
      ensures app.selectedSkills ==
        if GroupMoves(old(app.orderedSkills), old(skillDragData), yRoot, index) then SelectedFrom(app.orderedSkills)
        else old(app.selectedSkills)
      ensures skillDragData == if old(skillDragData).Some? && old(skillDragData).value.GroupDrag? then None else old(skillDragData)
    {
      reordered := false;
      if skillDragData.None? || !skillDragData.value.GroupDrag? {
        return;
      }
      var yDiff := yRoot - skillDragData.value.startY;
      if FarEnough(yDiff, GroupThreshold) {
        var newIndex := StepTarget(index, |app.orderedSkills|, yDiff);
        if newIndex != index {
          StepTargetSpec(index, |app.orderedSkills|, yDiff);
          ghost var before := app.orderedSkills;
          var skillData := app.orderedSkills[index];
          app.orderedSkills := Remove(app.orderedSkills, index);
          app.orderedSkills := Insert(app.orderedSkills, newIndex, skillData);
          assert app.orderedSkills == Move(before, index, newIndex);
          UpdateSelectedSkillsFromOrdered();
          reordered := true;
        }
      }
      skillDragData := None;
    }

    /**
     * _end_individual_skill_drag: as the group version, for one skill inside
     * group `group`. A step from a stale skill index raises IndexError at
     * the pop: nothing has changed yet, the record stays, and `raised` says so.
     */
    method EndIndividualSkillDrag(yRoot: int, group: int, index: int) returns (reordered: bool, raised: bool)
      requires CanSkillDrop(app.orderedSkills, skillDragData, yRoot, group, index)
      modifies this`skillDragData, app`orderedSkills, app`selectedSkills
      ensures app.orderedSkills == SkillDrop(old(app.orderedSkills), old(skillDragData), yRoot, group, index)
      ensures reordered <==> SkillMoves(old(app.orderedSkills), old(skillDragData), yRoot, group, index)
      ensures raised <==> SkillStale(old(app.orderedSkills), old(skillDragData), yRoot, group, index)
      ensures app.selectedSkills ==
        if SkillMoves(old(app.orderedSkills), old(skillDragData), yRoot, group, index) then SelectedFrom(app.orderedSkills)
        else old(app.selectedSkills)
      ensures skillDragData ==
        if old(skillDragData).Some? && old(skillDragData).value.IndividualDrag? && !raised then None else old(skillDragData)
    {
      reordered, raised := false, false;
      if skillDragData.None? || !skillDragData.value.IndividualDrag? {
        return;
      }
      var yDiff := yRoot - skillDragData.value.startY;
      if FarEnough(yDiff, SkillThreshold) {
        var skillData := app.orderedSkills[group];
        var skills := skillData.skills;
        var newIndex := StepTarget(index, |skills|, yDiff);
        if newIndex != index {
          if index >= |skills| {
            raised := true;
            return;
          }
          StepTargetSpec(index, |skills|, yDiff);
          var skill := skills[index];
          skills := Remove(skills, index);
          skills := Insert(skills, newIndex, skill);
          var category := skillData.category;
          var newValue := category + " [" + Join(skills, ", ") + "]";
          app.orderedSkills := app.orderedSkills[group := skillData.(skills := skills, value := newValue)];
          UpdateSelectedSkillsFromOrdered();
          reordered := true;
        }
      }
      skillDragData := None;
    }
  }
}
