/**
 * The desktop wizard's budgeted skill string: "Category [a, b]" cut down to a
 * character limit by shortening a lone skill or by dropping trailing skills
 * and noting how many were dropped.
 */
module SkillLimit {
  import opened Text
  import Skills
  import Sorting

  /** The fixed string used when nothing sensible fits. */
  function Fallback(category: string): string
  {
    category + " [...]"
  }

  /** Room left for a lone skill once the category, " [" and "]" are placed (one more is reserved). */
  function Available(category: string, limit: int): int
  {
    limit - |category| - 4
  }

  /**
   * How many leading skills the pop loop keeps, starting from the first k:
   * trailing skills are dropped until the rest formats within the limit.
   */
  function Kept(category: string, skills: seq<string>, limit: int, k: nat): (n: nat)
    requires k <= |skills|
    ensures n <= k
    ensures n > 0 ==> |Skills.FormatSkill(category, skills[..n])| <= limit
    decreases k
  {
    if k == 0 || |Skills.FormatSkill(category, skills[..k])| <= limit then k
    else Kept(category, skills, limit, k - 1)
  }

  /** The trimmed result with `dropped` skills left out: the closing "]" becomes " +N]" when there is room. */
  function Marked(formatted: string, dropped: nat, limit: int): string
    requires formatted != []
  {
    if dropped > 0 && |formatted| + 5 <= limit then formatted[..|formatted| - 1] + " +" + NatToString(dropped) + "]"
    else formatted
  }

  /** _format_skill_with_limit. */
  function FormatWithLimit(category: string, skills: seq<string>, limit: int): string
  {
    var formatted := Skills.FormatSkill(category, skills);
    if skills == [] then ""
    else if |formatted| <= limit then formatted
    else if |skills| == 1 then
      var available := Available(category, limit);
      if available > 10 then category + " [" + Sorting.Prefix(skills[0], available - 3) + "...]"
      else Fallback(category)
    else
      var n := Kept(category, skills, limit, |skills|);
      if n > 0 then Marked(Skills.FormatSkill(category, skills[..n]), |skills| - n, limit)
      else Fallback(category)
  }

  /** The loop of _format_skill_with_limit: pop trailing skills while the format is over the limit. */
  method FormatSkillWithLimit(category: string, skills: seq<string>, limit: int) returns (r: string)
    ensures r == FormatWithLimit(category, skills, limit)
  {
    if skills == [] {
      return "";
    }
    var formatted := Skills.FormatSkill(category, skills);
    if |formatted| <= limit {
      return formatted;
    }
    if |skills| == 1 {
      var available := limit - |category| - 4;
      if available > 10 {
        var truncated := Sorting.Prefix(skills[0], available - 3) + "...";
        assert category + " [" + truncated + "]" == category + " [" + Sorting.Prefix(skills[0], available - 3) + "...]";
        return category + " [" + truncated + "]";
      }
    } else {
      var working := PopSkills(category, skills, limit);
      if working != [] {
        formatted := Skills.FormatSkill(category, working);
        var remaining := |skills| - |working|;
        if remaining > 0 {
          if |formatted| + 5 <= limit {
            return formatted[..|formatted| - 1] + " +" + NatToString(remaining) + "]";
          }
        }
        return formatted;
      }
    }
    return Fallback(category);
  }

  /** The pop loop: drop trailing skills while the format is over the limit. */
  method PopSkills(category: string, skills: seq<string>, limit: int) returns (working: seq<string>)
    ensures working == skills[..Kept(category, skills, limit, |skills|)]
  {
    working := skills;
    while working != [] && |Skills.FormatSkill(category, working)| > limit
      invariant |working| <= |skills| && working == skills[..|working|]
      invariant Kept(category, skills, limit, |skills|) == Kept(category, skills, limit, |working|)
      decreases |working|
    {
      working := working[..|working| - 1];
      assert working == skills[..|working|];
    }
  }

  // ---------------------------------------------------------------- properties

  /** No skills give the empty string; a format within the limit is returned as it is. */
  lemma FormatWithLimitShort(category: string, skills: seq<string>, limit: int)
    ensures skills == [] ==> FormatWithLimit(category, skills, limit) == ""
    ensures skills != [] && |Skills.FormatSkill(category, skills)| <= limit ==>
      FormatWithLimit(category, skills, limit) == Skills.FormatSkill(category, skills)
  {
  }

  /**
   * A lone skill over the limit with more than 10 characters of room is cut
   * to room - 3 characters followed by "...", and the result is exactly one
   * character under the limit.
   */
  lemma FormatWithLimitSingle(category: string, skill: string, limit: int)
    requires |Skills.FormatSkill(category, [skill])| > limit
    requires Available(category, limit) > 10
    ensures FormatWithLimit(category, [skill], limit) ==
      category + " [" + skill[..Available(category, limit) - 3] + "...]"
    ensures |FormatWithLimit(category, [skill], limit)| == limit - 1
  {
    Skills.FormatLength(category, [skill]);
    assert Join([skill], ", ") == skill;
  }

  /** The kept prefix is the longest one that fits: with one more skill it would be over the limit. */
  lemma {:induction false} KeptLongest(category: string, skills: seq<string>, limit: int, k: nat, j: nat)
    requires k <= |skills|
    requires Kept(category, skills, limit, k) < j <= k
    ensures |Skills.FormatSkill(category, skills[..j])| > limit
    decreases k
  {
    if j < k {
      KeptLongest(category, skills, limit, k - 1, j);
    }
  }

  /**
   * Several skills over the limit: at least one skill is dropped, the result
   * is the format of the longest fitting prefix, marked with " +N]" exactly
   * when there are five characters to spare, and never over the limit while
   * N has at most three digits.
   */
  lemma FormatWithLimitMany(category: string, skills: seq<string>, limit: int)
    requires |skills| >= 2
    requires |Skills.FormatSkill(category, skills)| > limit
    requires Kept(category, skills, limit, |skills|) > 0
    ensures var n := Kept(category, skills, limit, |skills|);
      var f := Skills.FormatSkill(category, skills[..n]);
      && n < |skills|
      && (forall j :: n < j <= |skills| ==> |Skills.FormatSkill(category, skills[..j])| > limit)
      && FormatWithLimit(category, skills, limit) ==
           (if |f| + 5 <= limit then f[..|f| - 1] + " +" + NatToString(|skills| - n) + "]" else f)
      && (|skills| - n < 1000 ==> |FormatWithLimit(category, skills, limit)| <= limit)
  {
    var n := Kept(category, skills, limit, |skills|);
    assert skills[..|skills|] == skills;
    forall j | n < j <= |skills| ensures |Skills.FormatSkill(category, skills[..j])| > limit {
      KeptLongest(category, skills, limit, |skills|, j);
    }
    NatToStringLength(|skills| - n);
  }

  /** The fallback is returned when a lone skill has too little room or no prefix of several skills fits. */
  lemma FormatWithLimitFallback(category: string, skills: seq<string>, limit: int)
    requires skills != [] && |Skills.FormatSkill(category, skills)| > limit
    requires if |skills| == 1 then Available(category, limit) <= 10 else Kept(category, skills, limit, |skills|) == 0
    ensures FormatWithLimit(category, skills, limit) == Fallback(category)
  {
  }

  /** Whatever the input, the result is empty, within the limit, or the fallback (for up to 1000 skills). */
  lemma FormatWithLimitBound(category: string, skills: seq<string>, limit: int)
    requires |skills| <= 1000
    ensures var r := FormatWithLimit(category, skills, limit);
      r == "" || |r| <= limit || r == Fallback(category)
  {
    var r := FormatWithLimit(category, skills, limit);
    if skills != [] && |Skills.FormatSkill(category, skills)| > limit {
      if |skills| == 1 && Available(category, limit) > 10 {
        FormatWithLimitSingle(category, skills[0], limit);
        assert skills == [skills[0]];
      } else if |skills| >= 2 && Kept(category, skills, limit, |skills|) > 0 {
        FormatWithLimitMany(category, skills, limit);
      }
    }
  }
}
