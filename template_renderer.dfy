/**
 * The template renderer: choosing between .docx and plain-text rendering,
 * and, for .docx, rewriting each paragraph that holds a placeholder. A
 * paragraph is a list of runs (stretches of text with one formatting); the
 * rewriting joins their text, substitutes the data and lays the result out
 * again as a job-title line (bold title, italic location), a skill line
 * (bold category, bracketed skills) or one plain run.
 */
module TemplateRenderer {
  import opened Wrappers
  import opened Text
  import opened Assoc

  // ---------------------------------------------------------------- dispatch

  /** The last index of `c` in `s`, or -1 (`str.rfind`). */
  function LastIndex(s: string, c: char): (r: int)
    ensures -1 <= r < |s|
    ensures r >= 0 ==> s[r] == c
    ensures forall j :: r < j < |s| ==> s[j] != c
    decreases |s|
  {
    if s == [] then -1
    else if s[|s| - 1] == c then |s| - 1
    else LastIndex(s[..|s| - 1], c)
  }

  /** Whether a character other than '.' lies in s[from..to]. */
  predicate HasNonDot(s: string, from: int, to: int)
    requires 0 <= from <= to <= |s|
  {
    exists j :: from <= j < to && s[j] != '.'
  }

  /**
   * `os.path.splitext` on a POSIX path: the extension starts at the last
   * '.' of the last path component, unless only dots precede it in that
   * component (a leading-dot name such as ".docx" has no extension).
   */
  function SplitExt(path: string): (r: (string, string))
    ensures r.0 + r.1 == path
    ensures r.1 == [] || r.1[0] == '.'
    ensures forall j :: 0 <= j < |r.1| ==> r.1[j] != '/' && (j > 0 ==> r.1[j] != '.')
  {
    var sep := LastIndex(path, '/');
    var dot := LastIndex(path, '.');
    if dot > sep && HasNonDot(path, sep + 1, dot) then
      assert forall j :: 0 <= j < |path[dot..]| ==> path[dot..][j] == path[dot + j];
      (path[..dot], path[dot..])
    else (path, "")
  }

  /** The .docx renderer is used exactly when the lower-cased extension is ".docx". */
  predicate UsesDocx(path: string)
  {
    Lower(SplitExt(path).1) == ".docx"
  }

  /**
   * Where a render request goes: a missing template fails first; a .docx
   * template needs python-docx, prefers docxtpl and falls back to the
   * python-docx renderer when docxtpl is absent or raises; every other
   * extension is rendered as text.
   */
  datatype Route = TemplateNotFound | DocxMissing | ViaDocxtpl | ViaDocxFallback | ViaText

  function RenderRoute(path: string, exists_: bool, hasDocx: bool, hasDocxtpl: bool, docxtplFails: bool): (r: Route)
    ensures r == TemplateNotFound <==> !exists_
    ensures r == ViaText <==> exists_ && !UsesDocx(path)
    ensures r == DocxMissing <==> exists_ && UsesDocx(path) && !hasDocx
    ensures r == ViaDocxtpl <==> exists_ && UsesDocx(path) && hasDocx && hasDocxtpl && !docxtplFails
    ensures r == ViaDocxFallback <==> exists_ && UsesDocx(path) && hasDocx && (!hasDocxtpl || docxtplFails)
  {
    if !exists_ then TemplateNotFound
    else if !UsesDocx(path) then ViaText
    else if !hasDocx then DocxMissing
    else if hasDocxtpl && !docxtplFails then ViaDocxtpl
    else ViaDocxFallback
  }

  /** The last index is determined by the character there and the characters after it. */
  lemma {:induction false} LastIndexIs(s: string, c: char, i: int)
    requires -1 <= i < |s|
    requires i >= 0 ==> s[i] == c
    requires forall j :: i < j < |s| ==> s[j] != c
    ensures LastIndex(s, c) == i
    decreases |s|
  {
    if s != [] && s[|s| - 1] != c {
      LastIndexIs(s[..|s| - 1], c, i);
    }
  }

  /** The suffix ".docx" in some letter case: a dot, then four characters that are not dots. */
  lemma DocxSuffix(tail: string)
    requires |tail| == 5 && Lower(tail) == ".docx"
    ensures tail[0] == '.' && forall j :: 1 <= j < 5 ==> tail[j] != '.'
  {
    assert LowerChar(tail[0]) == '.';
    forall j | 1 <= j < 5 ensures tail[j] != '.' {
      assert LowerChar(tail[j]) == ".docx"[j];
    }
  }

  /**
   * A path is rendered as .docx exactly when it ends in ".docx" in any
   * letter case, no '/' lies in that suffix, and the last path component
   * has a character other than a dot before it.
   */
  predicate DocxName(path: string)
  {
    |path| >= 5 && Lower(path[|path| - 5..]) == ".docx" && LastIndex(path, '/') < |path| - 5
    && HasNonDot(path, LastIndex(path, '/') + 1, |path| - 5)
  }

  lemma UsesDocxIff(path: string)
    ensures UsesDocx(path) <==> DocxName(path)
  {
    if UsesDocx(path) {
      UsesDocxOnly(path);
    }
    if DocxName(path) {
      UsesDocxWhen(path);
    }
  }

  lemma UsesDocxOnly(path: string)
    requires UsesDocx(path)
    ensures DocxName(path)
  {
    var sep := LastIndex(path, '/');
    var dot := LastIndex(path, '.');
    assert SplitExt(path).1 != "";
    assert dot > sep && HasNonDot(path, sep + 1, dot);
    assert SplitExt(path).1 == path[dot..];
  }

  lemma UsesDocxWhen(path: string)
    requires DocxName(path)
    ensures UsesDocx(path)
  {
    var n := |path| - 5;
    var tail := path[n..];
    DocxSuffix(tail);
    forall j | n < j < |path| ensures path[j] != '.' {
      assert path[j] == tail[j - n];
    }
    LastIndexIs(path, '.', n);
    assert SplitExt(path).1 == tail;
  }

  /** The letter case of the extension does not matter. */
  lemma DocxUpperCase()
    ensures UsesDocx("cv.DOCX")
  {
    var a := "cv.DOCX";
    LastIndexIs(a, '/', -1);
    assert a[0] != '.';
    assert Lower(a[2..]) == ".docx";
    UsesDocxWhen(a);
  }

  /** A bare ".docx" file name has no extension, so it is rendered as text. */
  lemma DocxHiddenName()
    ensures !UsesDocx(".docx")
    ensures !UsesDocx("cv/.docx")
  {
    LastIndexIs(".docx", '/', -1);
    UsesDocxIff(".docx");
    LastIndexIs("cv/.docx", '/', 2);
    UsesDocxIff("cv/.docx");
  }

  // ---------------------------------------------------------------- placeholders and folds

  /** The single-brace placeholder of a key, `{KEY}`. */
  function Placeholder(key: string): (r: string)
    ensures |r| == |key| + 2 && r[0] == '{' && r[|r| - 1] == '}'
  {
    "{" + key + "}"
  }

  /** The Jinja form a placeholder is converted to, `{{ KEY }}`. */
  function JinjaForm(key: string): (r: string)
    ensures |r| == |key| + 6
  {
    "{{ " + key + " }}"
  }

  /** The double-brace placeholder of text templates, `{{KEY}}`. */
  function DoubleBrace(key: string): (r: string)
    ensures |r| == |key| + 4 && r[..2] == "{{"
  {
    "{{" + key + "}}"
  }

  /**
   * `for key, value in data.items(): text = text.replace(wrap(key), value)`:
   * the data in insertion order, each key's placeholder form replaced by
   * its value in the text the previous replacements left.
   */
  function Fold(text: string, data: Dict<string, string>, wrap: string -> string): string
    decreases |data|
  {
    if data == [] then text
    else
      var n := |data| - 1;
      Replace(Fold(text, data[..n], wrap), wrap(data[n].0), data[n].1)
  }

  /** A text in which no key's (non-empty) placeholder occurs comes out of the fold unchanged. */
  lemma {:induction false} FoldAbsent(text: string, data: Dict<string, string>, wrap: string -> string)
    requires forall i :: 0 <= i < |data| ==> |wrap(data[i].0)| > 0 && !Contains(text, wrap(data[i].0))
    ensures Fold(text, data, wrap) == text
    decreases |data|
  {
    if data != [] {
      var n := |data| - 1;
      FoldAbsent(text, data[..n], wrap);
      ReplaceAbsent(text, wrap(data[n].0), data[n].1);
    }
  }

  /** The fold over one more entry replaces that entry's placeholder last. */
  lemma FoldSnoc(text: string, data: Dict<string, string>, wrap: string -> string, k: string, v: string)
    ensures Fold(text, data + [(k, v)], wrap) == Replace(Fold(text, data, wrap), wrap(k), v)
  {
    assert (data + [(k, v)])[..|data|] == data;
  }

  /**
   * The job-title loop replaces a placeholder only when it is present;
   * since replacing an absent placeholder changes nothing, it computes the
   * same text as the plain fold.
   */
  function GuardedFold(text: string, data: Dict<string, string>): string
    decreases |data|
  {
    if data == [] then text
    else
      var n := |data| - 1;
      var t := GuardedFold(text, data[..n]);
      var ph := Placeholder(data[n].0);
      if Contains(t, ph) then Replace(t, ph, data[n].1) else t
  }

  lemma {:induction false} GuardedFoldIsFold(text: string, data: Dict<string, string>)
    ensures GuardedFold(text, data) == Fold(text, data, Placeholder)
    decreases |data|
  {
    if data != [] {
      var n := |data| - 1;
      GuardedFoldIsFold(text, data[..n]);
      var t := GuardedFold(text, data[..n]);
      if !Contains(t, Placeholder(data[n].0)) {
        ReplaceAbsent(t, Placeholder(data[n].0), data[n].1);
      }
    }
  }

  /** Keys whose values are skill lines. */
  predicate IsSkillKey(key: string)
  {
    "SKILL_" <= key
  }

  /**
   * The skill loop: for each SKILL_ key, `{KEY}` is replaced when present,
   * and otherwise `{{ KEY }}` is replaced when present.
   */
  function SkillFold(text: string, data: Dict<string, string>): string
    decreases |data|
  {
    if data == [] then text
    else
      var n := |data| - 1;
      SkillStep(SkillFold(text, data[..n]), data[n])
  }

  /** One step of the skill loop. */
  function SkillStep(t: string, entry: (string, string)): string
  {
    var (k, v) := entry;
    if !IsSkillKey(k) then t
    else if Contains(t, Placeholder(k)) then Replace(t, Placeholder(k), v)
    else if Contains(t, JinjaForm(k)) then Replace(t, JinjaForm(k), v)
    else t
  }

  /** Only the SKILL_ entries, in their order. */
  function SkillEntries(data: Dict<string, string>): (r: Dict<string, string>)
    ensures |r| <= |data|
    ensures forall i :: 0 <= i < |r| ==> IsSkillKey(r[i].0) && r[i] in data
    decreases |data|
  {
    if data == [] then []
    else
      var n := |data| - 1;
      SkillEntries(data[..n]) + (if IsSkillKey(data[n].0) then [data[n]] else [])
  }

  /** The skill loop ignores every entry whose key does not start with SKILL_. */
  lemma {:induction false} SkillFoldOnlySkills(text: string, data: Dict<string, string>)
    ensures SkillFold(text, data) == SkillFold(text, SkillEntries(data))
    decreases |data|
  {
    if data != [] {
      var n := |data| - 1;
      SkillFoldOnlySkills(text, data[..n]);
      var e := SkillEntries(data[..n]);
      var t := SkillFold(text, data[..n]);
      if IsSkillKey(data[n].0) {
        assert SkillEntries(data) == e + [data[n]];
        assert (e + [data[n]])[..|e|] == e;
        assert SkillFold(text, e + [data[n]]) == SkillStep(SkillFold(text, e), data[n]);
      } else {
        assert SkillEntries(data) == e;
      }
      assert SkillFold(text, data) == SkillStep(t, data[n]);
    }
  }

  /**
   * When the skill value replaced at each step is the one the single-brace
   * placeholder asks for, the skill loop is the plain fold over the SKILL_
   * entries: it differs only when `{KEY}` is absent and `{{ KEY }}` is there.
   */
  lemma {:induction false} SkillFoldSingleBrace(text: string, data: Dict<string, string>)
    requires forall i :: 0 <= i < |data| ==> !Contains(SkillFold(text, data[..i]), JinjaForm(data[i].0))
    ensures SkillFold(text, data) == Fold(text, SkillEntries(data), Placeholder)
    decreases |data|
  {
    if data != [] {
      var n := |data| - 1;
      var init := data[..n];
      forall i | 0 <= i < n ensures !Contains(SkillFold(text, init[..i]), JinjaForm(init[i].0)) {
        assert init[..i] == data[..i] && init[i] == data[i];
      }
      SkillFoldSingleBrace(text, init);
      var t := SkillFold(text, init);
      var e := SkillEntries(init);
      var (k, v) := data[n];
      assert SkillFold(text, data) == SkillStep(t, (k, v));
      assert !Contains(t, JinjaForm(k));
      if IsSkillKey(k) {
        assert SkillEntries(data) == e + [(k, v)];
        FoldSnoc(text, e, Placeholder, k, v);
        if !Contains(t, Placeholder(k)) {
          ReplaceAbsent(t, Placeholder(k), v);
        }
      } else {
        assert SkillEntries(data) == e;
      }
    }
  }

  // ---------------------------------------------------------------- classification

  /** `"TITLE" in key.upper()`. */
  predicate IsTitleKey(key: string)
  {
    Contains(Upper(key), "TITLE")
  }

  const Hyphen: string := " - "
  const EnDash: string := " – "

  predicate HasJobTitle(text: string, data: Dict<string, string>)
  {
    exists i :: 0 <= i < |data| && IsTitleKey(data[i].0) && Contains(text, Placeholder(data[i].0))
  }

  predicate HasLocationPattern(text: string)
  {
    Contains(text, Hyphen) || Contains(text, EnDash)
  }

  predicate HasSkillPlaceholder(text: string, data: Dict<string, string>)
  {
    exists i :: 0 <= i < |data| && IsSkillKey(data[i].0) && Contains(text, Placeholder(data[i].0))
  }

  datatype Layout = TitleLayout | SkillLayout | PlainLayout

  /**
   * How a paragraph is laid out again: as a job-title line when a TITLE
   * key's placeholder and a " - " or " – " separator are both in it,
   * otherwise as a skill line when a SKILL_ key's placeholder is in it,
   * otherwise by plain replacement.
   */
  function LayoutOf(text: string, data: Dict<string, string>): (l: Layout)
    ensures l == TitleLayout <==> HasJobTitle(text, data) && HasLocationPattern(text)
    ensures l == SkillLayout <==> !(HasJobTitle(text, data) && HasLocationPattern(text)) && HasSkillPlaceholder(text, data)
    ensures l == PlainLayout <==> !(HasJobTitle(text, data) && HasLocationPattern(text)) && !HasSkillPlaceholder(text, data)
  {
    if HasJobTitle(text, data) && HasLocationPattern(text) then TitleLayout
    else if HasSkillPlaceholder(text, data) then SkillLayout
    else PlainLayout
  }

  // ---------------------------------------------------------------- the job-title split

  /** The separator the title line is split at: " – " when present, else " - " when present. */
  function Separator(text: string): (r: Option<string>)
    ensures r.Some? <==> HasLocationPattern(text)
    ensures r.Some? ==> Contains(text, r.value) && |r.value| == 3
    ensures r == Some(Hyphen) ==> !Contains(text, EnDash)
  {
    if Contains(text, EnDash) then Some(EnDash)
    else if Contains(text, Hyphen) then Some(Hyphen)
    else None
  }

  /** The index of the first occurrence of `pat` in `s`. */
  function FirstIndex(s: string, pat: string): (r: nat)
    requires Contains(s, pat)
    ensures OccursAt(s, pat, r)
    ensures forall j :: 0 <= j < r ==> !OccursAt(s, pat, j)
    decreases |s|
  {
    if pat <= s then
      assert s[..|pat|] == pat;
      0
    else
      var q := FirstIndex(s[1..], pat);
      var r := 1 + q;
      assert s[r..r + |pat|] == s[1..][q..q + |pat|];
      forall j | 0 <= j < r ensures !OccursAt(s, pat, j) {
        if j == 0 {
          assert |pat| <= |s| ==> s[0..|pat|] == s[..|pat|];
        } else {
          assert !OccursAt(s[1..], pat, j - 1);
          if j + |pat| <= |s| {
            assert s[1..][j - 1..j - 1 + |pat|] == s[j..j + |pat|];
          }
        }
      }
      r
  }

  /** `text.split(sep, 1)` when `sep` occurs: the parts before and after its first occurrence. */
  function SplitFirst(text: string, sep: string): (r: (string, string))
    requires Contains(text, sep)
    ensures r.0 + sep + r.1 == text
    ensures forall j :: 0 <= j < |r.0| ==> !OccursAt(text, sep, j)
  {
    var i := FirstIndex(text, sep);
    assert text == text[..i] + text[i..i + |sep|] + text[i + |sep|..];
    (text[..i], text[i + |sep|..])
  }

  // ---------------------------------------------------------------- the skill-line pattern

  /** The index of the first occurrence of `c` in `s` (`str.find`). */
  function IndexOf(s: string, c: char): (r: Option<nat>)
    ensures r.Some? ==> r.value < |s| && s[r.value] == c && forall j :: 0 <= j < r.value ==> s[j] != c
    ensures r.None? ==> forall j :: 0 <= j < |s| ==> s[j] != c
    decreases |s|
  {
    if s == [] then None
    else if s[0] == c then Some(0)
    else
      match IndexOf(s[1..], c)
      case None => None
      case Some(i) => Some(i + 1)
  }

  /**
   * `re.match(r'^([^[]+?)\s*\[([^\]]+)\]$', text.strip())`, returning the
   * stripped groups. On the stripped text t the pattern holds exactly when
   * the first '[' of t is not its first character, t ends in ']' and at
   * least one character, none of them ']', lies between the two; the lazy
   * first group then ends where the whitespace before that '[' starts, so
   * once stripped it is t's part before the '[', stripped.
   */
  function ParseSkillLine(text: string): (r: Option<(string, string)>)
  {
    var t := Strip(text);
    match IndexOf(t, '[')
    case None => None
    case Some(i) =>
      if 1 <= i && i + 3 <= |t| && t[|t| - 1] == ']' && ']' !in t[i + 1..|t| - 1]
      then Some((Strip(t[..i]), Strip(t[i + 1..|t| - 1])))
      else None
  }

  /** A string with one trailing space strips back to itself when it is stripped. */
  lemma StripTrailingBlank(c: string)
    requires c != [] && IsStripped(c)
    ensures Strip(c + " ") == c
  {
    var s := c + " ";
    SkipLeftIs(s, IsSpace, 0);
    assert s[..|s| - 1] == c;
    assert SkipRight(c, IsSpace) == |c|;
  }

  /**
   * A formatted skill line parses back into its parts: a stripped,
   * non-empty category without '[' and a stripped, non-empty skill list
   * without ']', written as `category [skills]`.
   */
  lemma ParseSkillLineRoundTrip(category: string, skills: string)
    requires category != [] && IsStripped(category) && '[' !in category
    requires skills != [] && IsStripped(skills) && ']' !in skills
    ensures ParseSkillLine(category + " [" + skills + "]") == Some((category, skills))
  {
    var text := category + " [" + skills + "]";
    var n := |category|;
    assert text[0] == category[0] && text[|text| - 1] == ']';
    StripFix(text);
    var t := Strip(text);
    assert t == text;
    assert text[n + 1] == '[';
    assert text[..n + 1] == category + " ";
    forall j | 0 <= j < n + 1 ensures t[j] != '[' {
      if j < n {
        assert t[j] == category[j];
      }
    }
    assert IndexOf(t, '[') == Some(n + 1);
    assert text[n + 2..|text| - 1] == skills;
    StripTrailingBlank(category);
    StripFix(skills);
  }

  /** The skill lines the application builds, `category [s1, s2, ...]`, parse back into category and list. */
  lemma ParseFormattedSkill(category: string, skills: seq<string>)
    requires category != [] && IsStripped(category) && '[' !in category
    requires var j := Join(skills, ", "); j != [] && IsStripped(j) && ']' !in j
    ensures ParseSkillLine(category + " [" + Join(skills, ", ") + "]") == Some((category, Join(skills, ", ")))
  {
    ParseSkillLineRoundTrip(category, Join(skills, ", "));
  }

  // ---------------------------------------------------------------- runs

  /** A run: its text, whether it is bold or italic, and whether the font was set to Times New Roman 11pt. */
  datatype Run = Run(text: string, bold: bool, italic: bool, styled: bool)

  /** The paragraph's text: its runs' texts joined. */
  function RunsText(rs: seq<Run>): string
    decreases |rs|
  {
    if rs == [] then "" else RunsText(rs[..|rs| - 1]) + rs[|rs| - 1].text
  }

  lemma {:induction false} RunsTextAppend(a: seq<Run>, b: seq<Run>)
    ensures RunsText(a + b) == RunsText(a) + RunsText(b)
    decreases |b|
  {
    if b == [] {
      assert a + b == a;
    } else {
      var n := |b| - 1;
      var ab := a + b;
      assert ab[..|ab| - 1] == a + b[..n];
      assert ab[|ab| - 1] == b[n];
      RunsTextAppend(a, b[..n]);
      assert RunsText(b) == RunsText(b[..n]) + b[n].text;
    }
  }

  /** `run.clear()` on every run: the texts are emptied, the formatting stays. */
  function Cleared(rs: seq<Run>): (r: seq<Run>)
    ensures |r| == |rs|
    ensures forall i :: 0 <= i < |rs| ==> r[i] == rs[i].(text := "")
  {
    seq(|rs|, i requires 0 <= i < |rs| => rs[i].(text := ""))
  }

  lemma {:induction false} ClearedText(rs: seq<Run>)
    ensures RunsText(Cleared(rs)) == ""
    decreases |rs|
  {
    if rs != [] {
      ClearedText(rs[..|rs| - 1]);
      assert Cleared(rs)[..|rs| - 1] == Cleared(rs[..|rs| - 1]);
    }
  }

  /** A new run, as `paragraph.add_run(text)` makes it, with the font set when `styled`. */
  function NewRun(text: string, styled: bool): Run
  {
    Run(text, false, false, styled)
  }

  /** The text put into the first (cleared) run, or into a new run when there is none. */
  function IntoFirstRun(cleared: seq<Run>, text: string, styled: bool): (r: seq<Run>)
  {
    if cleared != [] then [cleared[0].(text := text, styled := cleared[0].styled || styled)] + cleared[1..]
    else [NewRun(text, styled)]
  }

  /** `_replace_job_title_with_formatting`. */
  function TitleRuns(rs: seq<Run>, data: Dict<string, string>): seq<Run>
  {
    var t := GuardedFold(RunsText(rs), data);
    var c := Cleared(rs);
    match Separator(t)
    case None => IntoFirstRun(c, t, true)
    case Some(sep) =>
      var parts := SplitFirst(t, sep);
      c + TitleLineRuns(Strip(parts.0), sep, Strip(parts.1))
  }

  /** The bold title, the separator and the italic location, all in Times New Roman 11pt. */
  function TitleLineRuns(title: string, sep: string, location: string): (r: seq<Run>)
    ensures RunsText(r) == title + sep + location
  {
    var r := [Run(title, true, false, true), NewRun(sep, true), Run(location, false, true, true)];
    RunsText3(r[0], r[1], r[2]);
    r
  }

  /** The bold category, " ", "[", the skills and "]", all in Times New Roman 11pt. */
  function SkillLineRuns(category: string, skills: string): (r: seq<Run>)
    ensures RunsText(r) == category + " [" + skills + "]"
  {
    var r := [Run(category, true, false, true), NewRun(" ", true), NewRun("[", true), NewRun(skills, true), NewRun("]", true)];
    RunsText5(r[0], r[1], r[2], r[3], r[4]);
    assert category + " " + "[" + skills + "]" == category + " [" + skills + "]";
    r
  }

  /** `_replace_skill_with_formatting`. */
  function SkillRuns(rs: seq<Run>, data: Dict<string, string>): seq<Run>
  {
    var t := SkillFold(RunsText(rs), data);
    var c := Cleared(rs);
    var p := ParseSkillLine(t);
    if p.None? then c + [NewRun(t, true)] else c + SkillLineRuns(p.value.0, p.value.1)
  }

  /** `_simple_text_replacement`: the runs are rewritten only when the replaced text differs. */
  function PlainRuns(rs: seq<Run>, data: Dict<string, string>): seq<Run>
  {
    var t := Fold(RunsText(rs), data, Placeholder);
    if t == RunsText(rs) then rs else IntoFirstRun(Cleared(rs), t, false)
  }

  /** `_simple_replace_paragraph_text`. */
  function Rewritten(rs: seq<Run>, data: Dict<string, string>): seq<Run>
  {
    match LayoutOf(RunsText(rs), data)
    case TitleLayout => TitleRuns(rs, data)
    case SkillLayout => SkillRuns(rs, data)
    case PlainLayout => PlainRuns(rs, data)
  }

  lemma IntoFirstRunText(cleared: seq<Run>, text: string, styled: bool)
    requires RunsText(cleared) == ""
    ensures RunsText(IntoFirstRun(cleared, text, styled)) == text
  {
    if cleared != [] {
      var a := [cleared[0].(text := text, styled := cleared[0].styled || styled)];
      RunsTextAppend([cleared[0]], cleared[1..]);
      assert [cleared[0]] + cleared[1..] == cleared;
      assert RunsText([cleared[0]]) == RunsText([]) + cleared[0].text;
      RunsTextAppend(a, cleared[1..]);
      assert RunsText(a) == RunsText([]) + text;
    } else {
      assert RunsText([NewRun(text, styled)]) == RunsText([]) + text;
    }
  }

  /** The text of three or five appended runs. */
  lemma RunsText3(a: Run, b: Run, c: Run)
    ensures RunsText([a, b, c]) == a.text + b.text + c.text
  {
    assert [a, b, c][..2] == [a, b];
    assert [a, b][..1] == [a];
    assert [a][..0] == [];
    assert RunsText([a]) == a.text;
    assert RunsText([a, b]) == a.text + b.text;
  }

  lemma RunsText5(a: Run, b: Run, c: Run, d: Run, e: Run)
    ensures RunsText([a, b, c, d, e]) == a.text + b.text + c.text + d.text + e.text
  {
    assert [a, b, c, d, e][..4] == [a, b, c, d];
    assert [a, b, c, d][..3] == [a, b, c];
    RunsText3(a, b, c);
  }

  /**
   * A job-title paragraph reads, afterwards, as the substituted text with
   * the whitespace around the first separator normalised: the chosen
   * separator splits the substituted text at its first occurrence into a
   * title and a location, which come back stripped, the title bold and the
   * location italic. Without a separator the substituted text is kept whole.
   */
  lemma TitleRunsSpec(rs: seq<Run>, data: Dict<string, string>)
    ensures var t := Fold(RunsText(rs), data, Placeholder);
      Separator(t).None? ==> RunsText(TitleRuns(rs, data)) == t
    ensures var t := Fold(RunsText(rs), data, Placeholder);
      Separator(t).Some? ==>
        var sep := Separator(t).value;
        exists title, location ::
          title + sep + location == t && |title| == FirstIndex(t, sep)
          && TitleRuns(rs, data) == Cleared(rs) + TitleLineRuns(Strip(title), sep, Strip(location))
          && RunsText(TitleRuns(rs, data)) == Strip(title) + sep + Strip(location)
  {
    GuardedFoldIsFold(RunsText(rs), data);
    var t := Fold(RunsText(rs), data, Placeholder);
    ClearedText(rs);
    if Separator(t).None? {
      IntoFirstRunText(Cleared(rs), t, true);
    } else {
      var sep := Separator(t).value;
      var parts := SplitFirst(t, sep);
      var extra := TitleLineRuns(Strip(parts.0), sep, Strip(parts.1));
      assert TitleRuns(rs, data) == Cleared(rs) + extra;
      AppendToCleared(rs, extra);
      assert |parts.0| == FirstIndex(t, sep);
    }
  }

  /** Runs appended after cleared ones carry the whole text. */
  lemma AppendToCleared(rs: seq<Run>, extra: seq<Run>)
    ensures RunsText(Cleared(rs) + extra) == RunsText(extra)
  {
    ClearedText(rs);
    RunsTextAppend(Cleared(rs), extra);
  }

  /**
   * A skill paragraph whose substituted text matches the pattern reads,
   * afterwards, as `category [skills]`, in five new runs of which the
   * category is the bold first.
   */
  lemma SkillRunsMatched(rs: seq<Run>, data: Dict<string, string>)
    requires ParseSkillLine(SkillFold(RunsText(rs), data)).Some?
    ensures var p := ParseSkillLine(SkillFold(RunsText(rs), data)).value;
      RunsText(SkillRuns(rs, data)) == p.0 + " [" + p.1 + "]"
      && |SkillRuns(rs, data)| == |rs| + 5 && SkillRuns(rs, data)[|rs|].bold
  {
    var p := ParseSkillLine(SkillFold(RunsText(rs), data)).value;
    AppendToCleared(rs, SkillLineRuns(p.0, p.1));
  }

  /** Otherwise the paragraph reads as the substituted text, in one new run. */
  lemma SkillRunsUnmatched(rs: seq<Run>, data: Dict<string, string>)
    requires ParseSkillLine(SkillFold(RunsText(rs), data)).None?
    ensures RunsText(SkillRuns(rs, data)) == SkillFold(RunsText(rs), data)
    ensures |SkillRuns(rs, data)| == |rs| + 1
  {
    var t := SkillFold(RunsText(rs), data);
    var extra := [NewRun(t, true)];
    assert SkillRuns(rs, data) == Cleared(rs) + extra;
    AppendToCleared(rs, extra);
    assert RunsText(extra) == RunsText([]) + t;
  }

  /**
   * Plain replacement leaves the paragraph exactly as it was when the
   * substitution changes nothing (in particular when no key's placeholder
   * occurs), and otherwise the paragraph reads as the substituted text.
   */
  lemma PlainRunsSpec(rs: seq<Run>, data: Dict<string, string>)
    ensures RunsText(PlainRuns(rs, data)) == Fold(RunsText(rs), data, Placeholder)
    ensures Fold(RunsText(rs), data, Placeholder) == RunsText(rs) ==> PlainRuns(rs, data) == rs
    ensures (forall i :: 0 <= i < |data| ==> !Contains(RunsText(rs), Placeholder(data[i].0))) ==> PlainRuns(rs, data) == rs
  {
    var t := Fold(RunsText(rs), data, Placeholder);
    if t != RunsText(rs) {
      ClearedText(rs);
      IntoFirstRunText(Cleared(rs), t, false);
    }
    if forall i :: 0 <= i < |data| ==> !Contains(RunsText(rs), Placeholder(data[i].0)) {
      FoldAbsent(RunsText(rs), data, Placeholder);
    }
  }

  // ---------------------------------------------------------------- docxtpl data and Jinja conversion

  /** `{k: v for k, v in data.items() if not k.startswith("SKILL_")}`. */
  function WithoutSkills(data: Dict<string, string>): (r: Dict<string, string>)
    ensures |r| <= |data|
    decreases |data|
  {
    if data == [] then []
    else
      var n := |data| - 1;
      WithoutSkills(data[..n]) + (if IsSkillKey(data[n].0) then [] else [data[n]])
  }

  /** The docxtpl data has no SKILL_ key and agrees with the data on every other key. */
  lemma {:induction false} WithoutSkillsGet(data: Dict<string, string>, k: string)
    ensures Get(WithoutSkills(data), k) == if IsSkillKey(k) then None else Get(data, k)
    decreases |data|
  {
    if data != [] {
      var n := |data| - 1;
      var init := data[..n];
      WithoutSkillsGet(init, k);
      var w := WithoutSkills(init);
      GetSnoc(data, k);
      if !IsSkillKey(data[n].0) {
        assert WithoutSkills(data) == w + [data[n]];
        GetSnoc(w + [data[n]], k);
        assert (w + [data[n]])[..|w|] == w;
      } else {
        assert WithoutSkills(data) == w;
      }
    }
  }

  predicate NotWordChar(c: char) { !IsWordChar(c) }

  /** A name the pattern `[A-Za-z0-9_]+` accepts. */
  predicate IsPlaceholderName(name: string)
  {
    name != [] && forall i :: 0 <= i < |name| ==> IsWordChar(name[i])
  }

  /** What occurs in a suffix occurs in the whole text. */
  lemma ContainsInSuffix(s: string, k: nat, pat: string)
    requires k <= |s| && Contains(s[k..], pat)
    ensures Contains(s, pat)
  {
    assert s[..k] + s[k..] + "" == s;
    ContainsInConcat(s[..k], s[k..], "", pat);
  }

  /** `re.findall(r"\{([A-Za-z0-9_]+)\}", text)`: the names, left to right, of non-overlapping matches. */
  function Placeholders(s: string): (r: seq<string>)
    ensures forall i :: 0 <= i < |r| ==> IsPlaceholderName(r[i]) && Contains(s, Placeholder(r[i]))
    decreases |s|
  {
    if s == [] then []
    else
      var n := RunEnd(s[1..], NotWordChar);
      if s[0] == '{' && n > 0 && n + 1 < |s| && s[n + 1] == '}' then
        var name := s[1..n + 1];
        var rest := Placeholders(s[n + 2..]);
        PlaceholderAtStart(s, name);
        forall i | 0 <= i < |rest| ensures Contains(s, Placeholder(rest[i])) {
          ContainsInSuffix(s, n + 2, Placeholder(rest[i]));
        }
        [name] + rest
      else
        var rest := Placeholders(s[1..]);
        forall i | 0 <= i < |rest| ensures Contains(s, Placeholder(rest[i])) {
          ContainsInSuffix(s, 1, Placeholder(rest[i]));
        }
        rest
  }

  /** A text that opens with `{name}` contains that placeholder. */
  lemma PlaceholderAtStart(s: string, name: string)
    requires |name| + 2 <= |s| && s[0] == '{' && s[1..|name| + 1] == name && s[|name| + 1] == '}'
    ensures Contains(s, Placeholder(name))
  {
    assert s[..|name| + 2] == Placeholder(name);
    assert OccursAt(s, Placeholder(name), 0);
    ContainsAt(s, Placeholder(name), 0);
  }

  /** Every `{name}` in the text is found: a match never contains a brace, so no earlier match swallows it. */
  lemma PlaceholdersComplete(s: string, name: string)
    requires IsPlaceholderName(name) && Contains(s, Placeholder(name))
    ensures name in Placeholders(s)
  {
    ContainsIff(s, Placeholder(name));
    var i :| OccursAt(s, Placeholder(name), i);
    PlaceholderFoundAt(s, name, i);
  }

  lemma {:induction false} PlaceholderFoundAt(s: string, name: string, i: nat)
    requires IsPlaceholderName(name) && OccursAt(s, Placeholder(name), i)
    ensures name in Placeholders(s)
    decreases |s|
  {
    var m := |name|;
    assert s[i..i + m + 2] == Placeholder(name);
    assert s[i] == '{' && s[i + m + 1] == '}';
    assert forall q :: i + 1 <= q < i + m + 1 ==> s[q] == name[q - i - 1];
    var n := RunEnd(s[1..], NotWordChar);
    if i == 0 {
      RunEndIs(s[1..], NotWordChar, m);
      assert s[1..m + 1] == name;
    } else if s[0] == '{' && n > 0 && n + 1 < |s| && s[n + 1] == '}' {
      assert forall q :: 1 <= q < n + 1 ==> IsWordChar(s[q]) by {
        forall q | 1 <= q < n + 1 ensures IsWordChar(s[q]) {
          assert s[1..][q - 1] == s[q];
        }
      }
      assert i >= n + 2;
      var t := s[n + 2..];
      assert t[i - (n + 2)..i - (n + 2) + m + 2] == s[i..i + m + 2];
      PlaceholderFoundAt(t, name, i - (n + 2));
    } else {
      var t := s[1..];
      assert t[i - 1..i - 1 + m + 2] == s[i..i + m + 2];
      PlaceholderFoundAt(t, name, i - 1);
    }
  }

  /** `for k in placeholders: if not k.startswith("SKILL_"): conversion[k] = "{{ " + k + " }}"`. */
  function ConversionDict(names: seq<string>): Dict<string, string>
    decreases |names|
  {
    if names == [] then []
    else
      var n := |names| - 1;
      var d := ConversionDict(names[..n]);
      if IsSkillKey(names[n]) then d else Put(d, names[n], JinjaForm(names[n]))
  }

  /**
   * The conversion mapping has each non-SKILL_ name once, with its Jinja form,
   * and no SKILL_ name: skill placeholders keep their single-brace form.
   */
  lemma {:induction false} ConversionDictSpec(names: seq<string>, k: string)
    ensures DistinctKeys(ConversionDict(names))
    ensures Get(ConversionDict(names), k) == if k in names && !IsSkillKey(k) then Some(JinjaForm(k)) else None
    decreases |names|
  {
    if names != [] {
      var n := |names| - 1;
      var init := names[..n];
      ConversionDictSpec(init, k);
      assert names == init + [names[n]];
      if !IsSkillKey(names[n]) {
        ConversionDictSpec(init, names[n]);
        PutDistinct(ConversionDict(init), names[n], JinjaForm(names[n]));
        PutGet(ConversionDict(init), names[n], JinjaForm(names[n]), k);
      }
    }
  }

  /**
   * The conversion of a text maps `name` to its Jinja form exactly when `{name}`
   * occurs in the text, `name` is a placeholder name and not a SKILL_ key.
   */
  lemma ConversionCovers(text: string, name: string)
    ensures Get(ConversionDict(Placeholders(text)), name) == Some(JinjaForm(name))
      <==> IsPlaceholderName(name) && !IsSkillKey(name) && Contains(text, Placeholder(name))
  {
    var names := Placeholders(text);
    ConversionDictSpec(names, name);
    if IsPlaceholderName(name) && Contains(text, Placeholder(name)) {
      PlaceholdersComplete(text, name);
    }
    if name in names {
      var i :| 0 <= i < |names| && names[i] == name;
    }
  }

  /** `_convert_placeholders_to_jinja` on one paragraph. */
  function JinjaRuns(rs: seq<Run>): seq<Run>
  {
    var text := RunsText(rs);
    if '{' in text && ConversionDict(Placeholders(text)) != [] then Rewritten(rs, ConversionDict(Placeholders(text)))
    else rs
  }

  /** "{" in cell.text is the same test as "{" in one of its paragraphs, the cell text joining them with newlines. */
  lemma {:induction false} CellGuard(texts: seq<string>)
    ensures '{' in Join(texts, "\n") <==> exists i :: 0 <= i < |texts| && '{' in texts[i]
    decreases |texts|
  {
    if |texts| > 1 {
      CellGuard(texts[1..]);
      var j := Join(texts[1..], "\n");
      assert Join(texts, "\n") == texts[0] + "\n" + j;
      if '{' in Join(texts, "\n") {
        var p :| 0 <= p < |Join(texts, "\n")| && Join(texts, "\n")[p] == '{';
        if p < |texts[0]| {
          assert texts[0][p] == '{';
        } else {
          assert j[p - |texts[0]| - 1] == '{';
          var i :| 0 <= i < |texts[1..]| && '{' in texts[1..][i];
          assert texts[i + 1] == texts[1..][i];
        }
      }
      if exists i :: 0 <= i < |texts| && '{' in texts[i] {
        var i :| 0 <= i < |texts| && '{' in texts[i];
        var p :| 0 <= p < |texts[i]| && texts[i][p] == '{';
        if i == 0 {
          assert Join(texts, "\n")[p] == '{';
        } else {
          assert texts[1..][i - 1] == texts[i];
          var q :| 0 <= q < |j| && j[q] == '{';
          assert Join(texts, "\n")[|texts[0]| + 1 + q] == '{';
        }
      }
    }
  }

  // ---------------------------------------------------------------- text templates

  /**
   * `_render_text_template`: each key's `{{KEY}}` is replaced by its value.
   * A template without "{{" comes out unchanged, so single-brace `{KEY}`
   * placeholders are left alone by the text renderer.
   */
  lemma TextTemplateNeedsDoubleBraces(content: string, data: Dict<string, string>)
    requires !Contains(content, "{{")
    ensures Fold(content, data, DoubleBrace) == content
  {
    forall i | 0 <= i < |data| ensures !Contains(content, DoubleBrace(data[i].0)) {
      var pat := DoubleBrace(data[i].0);
      if Contains(content, pat) {
        ContainsIff(content, pat);
        var p :| OccursAt(content, pat, p);
        assert content[p..p + 2] == pat[..2];
        assert OccursAt(content, "{{", p);
        ContainsAt(content, "{{", p);
      }
    }
    FoldAbsent(content, data, DoubleBrace);
  }

  /** Renders a text template's content. */
  method RenderTextTemplate(content: string, data: Dict<string, string>) returns (out: string)
    ensures out == Fold(content, data, DoubleBrace)
  {
    out := content;
    var i := 0;
    while i < |data|
      invariant 0 <= i <= |data|
      invariant out == Fold(content, data[..i], DoubleBrace)
    {
      var (k, v) := data[i];
      assert data[..i + 1][..i] == data[..i];
      out := Replace(out, DoubleBrace(k), v);
      i := i + 1;
    }
    assert data[..|data|] == data;
  }

  // ---------------------------------------------------------------- paragraphs

  /** A paragraph of a .docx document, whose runs the renderer rewrites in place. */
  class Paragraph {
    var runs: seq<Run>

    constructor(runs0: seq<Run>)
      ensures runs == runs0
    {
      runs := runs0;
    }

    function Text(): string
      reads this
    {
      RunsText(runs)
    }

    /** `for run in paragraph.runs: run.clear()`. */
    method ClearRuns()
      modifies this
      ensures runs == Cleared(old(runs))
    {
      var i := 0;
      while i < |runs|
        invariant 0 <= i <= |runs| == |old(runs)|
        invariant runs[..i] == Cleared(old(runs))[..i]
        invariant runs[i..] == old(runs)[i..]
      {
        runs := runs[i := runs[i].(text := "")];
        i := i + 1;
      }
    }

    /** `_replace_job_title_with_formatting`. */
    method ReplaceJobTitle(data: Dict<string, string>)
      modifies this
      ensures runs == TitleRuns(old(runs), data)
    {
      var full := Text();
      var newText := full;
      var i := 0;
      while i < |data|
        invariant 0 <= i <= |data|
        invariant newText == GuardedFold(full, data[..i])
      {
        var (k, v) := data[i];
        assert data[..i + 1][..i] == data[..i];
        if Contains(newText, Placeholder(k)) {
          newText := Replace(newText, Placeholder(k), v);
        }
        i := i + 1;
      }
      assert data[..|data|] == data;
      ClearRuns();
      var sep := Separator(newText);
      if sep.None? {
        runs := IntoFirstRun(runs, newText, true);
      } else {
        var parts := SplitFirst(newText, sep.value);
        runs := runs + TitleLineRuns(Strip(parts.0), sep.value, Strip(parts.1));
      }
    }

    /** `_replace_skill_with_formatting`. */
    method ReplaceSkill(data: Dict<string, string>)
      modifies this
      ensures runs == SkillRuns(old(runs), data)
    {
      var full := Text();
      var newText := full;
      var i := 0;
      while i < |data|
        invariant 0 <= i <= |data|
        invariant newText == SkillFold(full, data[..i])
      {
        var (k, v) := data[i];
        assert data[..i + 1][..i] == data[..i];
        if IsSkillKey(k) {
          if Contains(newText, Placeholder(k)) {
            newText := Replace(newText, Placeholder(k), v);
          } else if Contains(newText, JinjaForm(k)) {
            newText := Replace(newText, JinjaForm(k), v);
          }
        }
        i := i + 1;
      }
      assert data[..|data|] == data;
      ClearRuns();
      var parsed := ParseSkillLine(newText);
      if parsed.None? {
        runs := runs + [NewRun(newText, true)];
      } else {
        runs := runs + SkillLineRuns(parsed.value.0, parsed.value.1);
      }
    }

    /** `_simple_text_replacement`. */
    method SimpleTextReplacement(data: Dict<string, string>, full: string)
      requires full == RunsText(runs)
      modifies this
      ensures runs == PlainRuns(old(runs), data)
    {
      var newText := full;
      var i := 0;
      while i < |data|
        invariant 0 <= i <= |data|
        invariant newText == Fold(full, data[..i], Placeholder)
      {
        var (k, v) := data[i];
        assert data[..i + 1][..i] == data[..i];
        newText := Replace(newText, Placeholder(k), v);
        i := i + 1;
      }
      assert data[..|data|] == data;
      if newText != full {
        ClearRuns();
        runs := IntoFirstRun(runs, newText, false);
      }
    }

    /** `_simple_replace_paragraph_text`: classify the paragraph, then lay it out accordingly. */
    method SimpleReplaceParagraphText(data: Dict<string, string>)
      modifies this
      ensures runs == Rewritten(old(runs), data)
    {
      var full := Text();
      var layout := LayoutOf(full, data);
      if layout == TitleLayout {
        ReplaceJobTitle(data);
      } else if layout == SkillLayout {
        ReplaceSkill(data);
      } else {
        SimpleTextReplacement(data, full);
      }
    }

    /** One paragraph of `_convert_placeholders_to_jinja`. */
    method ConvertToJinja()
      modifies this
      ensures runs == JinjaRuns(old(runs))
    {
      var text := Text();
      if '{' in text {
        var names := Placeholders(text);
        var conversion: Dict<string, string> := [];
        var i := 0;
        while i < |names|
          invariant 0 <= i <= |names|
          invariant conversion == ConversionDict(names[..i])
        {
          var k := names[i];
          assert names[..i + 1][..i] == names[..i];
          if !IsSkillKey(k) {
            conversion := Put(conversion, k, JinjaForm(k));
          }
          i := i + 1;
        }
        assert names[..|names|] == names;
        if conversion != [] {
          SimpleReplaceParagraphText(conversion);
        }
      }
    }
  }

  /** What one pass over a document does to a paragraph: rewritten when its text holds a '{'. */
  function AfterPass(rs: seq<Run>, data: Dict<string, string>): seq<Run>
  {
    if '{' in RunsText(rs) then Rewritten(rs, data) else rs
  }

  /**
   * A .docx document, as the run lists of its paragraphs: the body
   * paragraphs followed by the paragraphs of the table cells, row by row.
   * The table loops test `"{" in cell.text` before testing each paragraph;
   * `CellGuard` shows that selects the same paragraphs.
   */
  class Document {
    var paragraphs: seq<seq<Run>>

    constructor(paragraphs0: seq<seq<Run>>)
      ensures paragraphs == paragraphs0
    {
      paragraphs := paragraphs0;
    }

    /**
     * The paragraph loops of `_apply_skill_formatting_to_docx` and
     * `_render_with_docx_fallback`: every paragraph holding a '{' is
     * rewritten with the data, the others are left alone.
     */
    method RewriteParagraphs(data: Dict<string, string>)
      modifies this
      ensures |paragraphs| == |old(paragraphs)|
      ensures forall i :: 0 <= i < |paragraphs| ==> paragraphs[i] == AfterPass(old(paragraphs)[i], data)
    {
      var k := 0;
      while k < |paragraphs|
        invariant 0 <= k <= |paragraphs| == |old(paragraphs)|
        invariant forall i :: 0 <= i < k ==> paragraphs[i] == AfterPass(old(paragraphs)[i], data)
        invariant forall i :: k <= i < |paragraphs| ==> paragraphs[i] == old(paragraphs)[i]
      {
        var rs := paragraphs[k];
        if '{' in RunsText(rs) {
          rs := Rewritten(rs, data);
        }
        paragraphs := paragraphs[k := rs];
        k := k + 1;
      }
    }

    /** The paragraph loops of `_convert_placeholders_to_jinja`. */
    method ConvertToJinja()
      modifies this
      ensures |paragraphs| == |old(paragraphs)|
      ensures forall i :: 0 <= i < |paragraphs| ==> paragraphs[i] == JinjaRuns(old(paragraphs)[i])
    {
      var k := 0;
      while k < |paragraphs|
        invariant 0 <= k <= |paragraphs| == |old(paragraphs)|
        invariant forall i :: 0 <= i < k ==> paragraphs[i] == JinjaRuns(old(paragraphs)[i])
        invariant forall i :: k <= i < |paragraphs| ==> paragraphs[i] == old(paragraphs)[i]
      {
        paragraphs := paragraphs[k := JinjaRuns(paragraphs[k])];
        k := k + 1;
      }
    }
  }
}
