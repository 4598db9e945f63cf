/**
 * The skill recommender of resume_app/skill_recommender.py: a taxonomy maps
 * each skill to its categories; skills are scored against a job text,
 * categories are scored by the skills they contain, a diverse set of top
 * categories is chosen and up to four skills are kept for each.
 *
 * Scores are counted in half-points, so the weights 10, 5, 1 and 0.5 of the
 * source are 20, 10, 2 and 1 here and no score needs a fraction.
 */
module Skills {
  import opened Wrappers
  import opened Text
  import opened Assoc
  import opened Seqs
  import Sorting

  /** skills_to_categories: skill name to its list of category names, in sheet order. */
  type Taxonomy = Dict<string, seq<string>>
  /** categories_to_skills, the reverse index. */
  type CategoryIndex = Dict<string, seq<string>>
  /** A score table in half-points. */
  type Scores = Dict<string, int>

  const DirectMention := 20   // 10.0: the lower-cased skill occurs in the job text
  const WholeWordMatch := 10  // 5.0: it also occurs between word boundaries
  const WordHit := 2          // 1.0: one word of the skill occurs in the job text
  const SynonymHit := 1       // 0.5: one related term of a base skill occurs in the job text
  const SkillsPerCategory := 4

  /** Related terms credited to any skill whose lower-cased name contains the base skill. */
  const Synonyms: seq<(string, seq<string>)> := [
    ("python", ["django", "flask", "pandas", "numpy", "scikit"]),
    ("javascript", ["js", "react", "angular", "vue", "node"]),
    ("java", ["spring", "maven", "gradle"]),
    ("sql", ["database", "mysql", "postgresql", "oracle"]),
    ("cloud", ["aws", "azure", "gcp", "kubernetes", "docker"]),
    ("machine learning", ["ml", "ai", "neural", "tensorflow", "pytorch"]),
    ("frontend", ["react", "angular", "vue", "css", "html"]),
    ("backend", ["api", "server", "database", "microservices"]),
    ("devops", ["ci/cd", "deployment", "automation", "infrastructure"])
  ]

  // ================================================================ reverse index

  function Repeat(x: string, n: nat): seq<string>
  {
    if n == 0 then [] else Repeat(x, n - 1) + [x]
  }

  lemma {:induction false} RepeatMembers(x: string, n: nat, y: string)
    ensures y in Repeat(x, n) <==> n > 0 && y == x
  {
    if n > 0 { RepeatMembers(x, n - 1, y); }
  }

  /** categories_to_skills[category].append(skill) on a defaultdict(list). */
  function AppendTo(idx: CategoryIndex, category: string, skill: string): CategoryIndex
  {
    Put(idx, category, GetOr(idx, category, []) + [skill])
  }

  /** The index after appending `skill` under each of `cats`, in order. */
  function AddUnder(idx: CategoryIndex, skill: string, cats: seq<string>): CategoryIndex
    decreases |cats|
  {
    if cats == [] then idx
    else AppendTo(AddUnder(idx, skill, cats[..|cats| - 1]), cats[|cats| - 1], skill)
  }

  /** The index built from a taxonomy, one skill after another. */
  function IndexOf(tax: Taxonomy): CategoryIndex
    decreases |tax|
  {
    if tax == [] then []
    else AddUnder(IndexOf(tax[..|tax| - 1]), tax[|tax| - 1].0, tax[|tax| - 1].1)
  }

  /**
   * Reference definition of one category's skill list: every skill of the
   * taxonomy in iteration order, once for each time the category is listed
   * for it.
   */
  function SkillsUnder(tax: Taxonomy, c: string): seq<string>
    decreases |tax|
  {
    if tax == [] then []
    else SkillsUnder(tax[..|tax| - 1], c) + Repeat(tax[|tax| - 1].0, Count(tax[|tax| - 1].1, c))
  }

  lemma {:induction false} AddUnderGet(idx: CategoryIndex, skill: string, cats: seq<string>, c: string)
    ensures GetOr(AddUnder(idx, skill, cats), c, []) == GetOr(idx, c, []) + Repeat(skill, Count(cats, c))
    decreases |cats|
  {
    if cats != [] {
      var init, last := cats[..|cats| - 1], cats[|cats| - 1];
      AddUnderGet(idx, skill, init, c);
      var a := AddUnder(idx, skill, init);
      PutGet(a, last, GetOr(a, last, []) + [skill], c);
    }
  }

  lemma {:induction false} AddUnderKeys(idx: CategoryIndex, skill: string, cats: seq<string>, c: string)
    ensures HasKey(AddUnder(idx, skill, cats), c) <==> HasKey(idx, c) || c in cats
    decreases |cats|
  {
    if cats != [] {
      var init, last := cats[..|cats| - 1], cats[|cats| - 1];
      AddUnderKeys(idx, skill, init, c);
      var a := AddUnder(idx, skill, init);
      PutKeys(a, last, GetOr(a, last, []) + [skill]);
      assert cats == init + [last];
    }
  }

  lemma {:induction false} AddUnderDistinct(idx: CategoryIndex, skill: string, cats: seq<string>)
    requires DistinctKeys(idx)
    ensures DistinctKeys(AddUnder(idx, skill, cats))
    decreases |cats|
  {
    if cats != [] {
      var init, last := cats[..|cats| - 1], cats[|cats| - 1];
      AddUnderDistinct(idx, skill, init);
      var a := AddUnder(idx, skill, init);
      PutDistinct(a, last, GetOr(a, last, []) + [skill]);
    }
  }

  lemma {:induction false} IndexOfSpec(tax: Taxonomy, c: string)
    ensures GetOr(IndexOf(tax), c, []) == SkillsUnder(tax, c)
    ensures HasKey(IndexOf(tax), c) <==> exists i :: 0 <= i < |tax| && c in tax[i].1
    ensures DistinctKeys(IndexOf(tax))
    decreases |tax|
  {
    if tax != [] {
      var init := tax[..|tax| - 1];
      IndexOfSpec(init, c);
      AddUnderGet(IndexOf(init), tax[|tax| - 1].0, tax[|tax| - 1].1, c);
      AddUnderKeys(IndexOf(init), tax[|tax| - 1].0, tax[|tax| - 1].1, c);
      AddUnderDistinct(IndexOf(init), tax[|tax| - 1].0, tax[|tax| - 1].1);
      if exists i :: 0 <= i < |tax| && c in tax[i].1 {
        var i :| 0 <= i < |tax| && c in tax[i].1;
        if i < |tax| - 1 { assert c in init[i].1; }
      }
      assert forall i :: 0 <= i < |init| ==> init[i] == tax[i];
    }
  }

  lemma {:induction false} SkillsUnderMembers(tax: Taxonomy, c: string, s: string)
    ensures s in SkillsUnder(tax, c) <==> exists i :: 0 <= i < |tax| && tax[i].0 == s && c in tax[i].1
    decreases |tax|
  {
    if tax != [] {
      var init, last := tax[..|tax| - 1], tax[|tax| - 1];
      SkillsUnderMembers(init, c, s);
      RepeatMembers(last.0, Count(last.1, c), s);
      CountPositive(last.1, c);
      assert forall i :: 0 <= i < |init| ==> init[i] == tax[i];
    }
  }

  /**
   * The reverse index: s is listed under c iff c is one of s's categories; so a
   * skill with an empty category list is listed nowhere, and c is a key iff
   * some skill lists it.
   */
  lemma IndexMembership(tax: Taxonomy, c: string, s: string)
    requires DistinctKeys(tax)
    ensures s in GetOr(IndexOf(tax), c, []) <==> c in GetOr(tax, s, [])
    ensures HasKey(IndexOf(tax), c) <==> exists i :: 0 <= i < |tax| && c in tax[i].1
  {
    IndexOfSpec(tax, c);
    SkillsUnderMembers(tax, c, s);
    if exists i :: 0 <= i < |tax| && tax[i].0 == s && c in tax[i].1 {
      var i :| 0 <= i < |tax| && tax[i].0 == s && c in tax[i].1;
      GetAt(tax, i);
    }
    if c in GetOr(tax, s, []) {
      GetSpec(tax, s);
      var i :| 0 <= i < |tax| && tax[i] == (s, Get(tax, s).value);
    }
  }

  /** The skills of a category appear in taxonomy order. */
  lemma IndexOrder(tax: Taxonomy, c: string)
    ensures GetOr(IndexOf(tax), c, []) == SkillsUnder(tax, c)
  {
    IndexOfSpec(tax, c);
  }

  // ================================================================ skill relevance

  /** The regular-expression `\b` at position p of t. */
  predicate BoundaryAt(t: string, p: int)
  {
    (0 < p <= |t| && IsWordChar(t[p - 1])) != (0 <= p < |t| && IsWordChar(t[p]))
  }

  /** re.search(r'\b' + re.escape(w) + r'\b', t) succeeds. */
  predicate WholeWordIn(t: string, w: string)
  {
    exists p :: 0 <= p <= |t| - |w| && OccursAt(t, w, p) && BoundaryAt(t, p) && BoundaryAt(t, p + |w|)
  }

  lemma WholeWordContains(t: string, w: string)
    requires WholeWordIn(t, w)
    ensures Contains(t, w)
  {
    var p :| 0 <= p <= |t| - |w| && OccursAt(t, w, p) && BoundaryAt(t, p) && BoundaryAt(t, p + |w|);
    ContainsAt(t, w, p);
  }

  /** How many of `terms` (with repetition) occur in t. */
  function CountFound(terms: seq<string>, t: string): nat
    decreases |terms|
  {
    if terms == [] then 0
    else CountFound(terms[..|terms| - 1], t) + (if Contains(t, terms[|terms| - 1]) then 1 else 0)
  }

  /** Half-points from the synonym table rows whose base skill is in the skill name. */
  function SynonymHits(skill: string, t: string, table: seq<(string, seq<string>)>): nat
    decreases |table|
  {
    if table == [] then 0
    else
      var (base, terms) := table[|table| - 1];
      SynonymHits(skill, t, table[..|table| - 1]) + (if Contains(Lower(skill), base) then SynonymHit * CountFound(terms, t) else 0)
  }

  lemma CountFoundAt(terms: seq<string>, t: string, i: nat)
    requires i < |terms|
    ensures CountFound(terms[..i + 1], t) == CountFound(terms[..i], t) + (if Contains(t, terms[i]) then 1 else 0)
  {
    var r := terms[..i + 1];
    assert r[..|r| - 1] == terms[..i];
  }

  lemma SynonymHitsAt(skill: string, t: string, table: seq<(string, seq<string>)>, k: nat)
    requires k < |table|
    ensures SynonymHits(skill, t, table[..k + 1]) == SynonymHits(skill, t, table[..k])
      + (if Contains(Lower(skill), table[k].0) then SynonymHit * CountFound(table[k].1, t) else 0)
  {
    var r := table[..k + 1];
    assert r[..|r| - 1] == table[..k];
  }

  /** _calculate_semantic_score on an already lower-cased skill. */
  function SemanticScore(skill: string, t: string): nat
  {
    WordHit * CountFound(Words(skill), t) + SynonymHits(skill, t, Synonyms)
  }

  /** _calculate_skill_relevance against a lower-cased job text. */
  function Relevance(skill: string, t: string): nat
  {
    var s := Lower(skill);
    (if Contains(t, s) then DirectMention else 0)
    + (if WholeWordIn(t, s) then WholeWordMatch else 0)
    + SemanticScore(s, t)
  }

  predicate AnyFound(terms: seq<string>, t: string)
  {
    exists i :: 0 <= i < |terms| && Contains(t, terms[i])
  }

  lemma {:induction false} CountFoundPositive(terms: seq<string>, t: string)
    ensures CountFound(terms, t) > 0 <==> AnyFound(terms, t)
    decreases |terms|
  {
    if terms != [] {
      var init := terms[..|terms| - 1];
      CountFoundPositive(init, t);
      assert forall i :: 0 <= i < |init| ==> init[i] == terms[i];
    }
  }

  /** Some row of the table has its base skill in the skill name and a related term in the text. */
  predicate SynonymSignal(skill: string, t: string, table: seq<(string, seq<string>)>)
  {
    exists k :: 0 <= k < |table| && Contains(Lower(skill), table[k].0) && AnyFound(table[k].1, t)
  }

  lemma {:induction false} SynonymHitsPositive(skill: string, t: string, table: seq<(string, seq<string>)>)
    ensures SynonymHits(skill, t, table) > 0 <==> SynonymSignal(skill, t, table)
    decreases |table|
  {
    if table != [] {
      var init := table[..|table| - 1];
      SynonymHitsPositive(skill, t, init);
      CountFoundPositive(table[|table| - 1].1, t);
      assert forall k :: 0 <= k < |init| ==> init[k] == table[k];
    }
  }

  /**
   * A skill is kept (scores above zero) exactly when its lower-cased name
   * occurs in the text, one of its words does, or a related term of a base
   * skill contained in its name does.
   */
  lemma RelevancePositive(skill: string, t: string)
    ensures Relevance(skill, t) > 0 <==>
      Contains(t, Lower(skill)) || AnyFound(Words(Lower(skill)), t) || SynonymSignal(Lower(skill), t, Synonyms)
  {
    var s := Lower(skill);
    if WholeWordIn(t, s) { WholeWordContains(t, s); }
    CountFoundPositive(Words(s), t);
    SynonymHitsPositive(s, t, Synonyms);
  }

  /** A whole-word mention is worth at least the direct and the boundary bonus together (15 points). */
  lemma WholeWordScore(skill: string, t: string)
    requires WholeWordIn(t, Lower(skill))
    ensures Relevance(skill, t) >= DirectMention + WholeWordMatch
  {
    WholeWordContains(t, Lower(skill));
  }

  /** The kept scores: every skill of the taxonomy with a positive relevance, in taxonomy order. */
  function KeptScores(tax: Taxonomy, t: string): Scores
    decreases |tax|
  {
    if tax == [] then []
    else
      var s := tax[|tax| - 1].0;
      var rest := KeptScores(tax[..|tax| - 1], t);
      if Relevance(s, t) > 0 then Put(rest, s, Relevance(s, t)) else rest
  }

  /** A skill has a kept score iff it is in the taxonomy with positive relevance, and the score is that relevance. */
  lemma {:induction false} KeptScoresSpec(tax: Taxonomy, t: string, s: string)
    ensures Get(KeptScores(tax, t), s) == if HasKey(tax, s) && Relevance(s, t) > 0 then Some(Relevance(s, t)) else None
    ensures DistinctKeys(KeptScores(tax, t))
    decreases |tax|
  {
    if tax != [] {
      var init, last := tax[..|tax| - 1], tax[|tax| - 1].0;
      var rest := KeptScores(init, t);
      KeptScoresSpec(init, t, s);
      HasKeySnoc(tax, s);
      if Relevance(last, t) > 0 {
        assert KeptScores(tax, t) == Put(rest, last, Relevance(last, t));
        PutGet(rest, last, Relevance(last, t), s);
        PutDistinct(rest, last, Relevance(last, t));
      } else {
        assert KeptScores(tax, t) == rest;
      }
    }
  }

  /** One more skill of the taxonomy: kept with its relevance if that is positive. */
  lemma KeptScoresStep(tax: Taxonomy, i: nat, t: string)
    requires i < |tax|
    ensures KeptScores(tax[..i + 1], t) ==
      if Relevance(tax[i].0, t) > 0 then Put(KeptScores(tax[..i], t), tax[i].0, Relevance(tax[i].0, t))
      else KeptScores(tax[..i], t)
  {
    assert tax[..i + 1][..i] == tax[..i];
  }

  /** Every kept score is positive. */
  lemma KeptScoresPositive(tax: Taxonomy, t: string)
    ensures forall i :: 0 <= i < |KeptScores(tax, t)| ==> KeptScores(tax, t)[i].1 > 0
  {
    var ks := KeptScores(tax, t);
    forall i | 0 <= i < |ks| ensures ks[i].1 > 0 {
      KeptScoresSpec(tax, t, ks[i].0);
      GetAt(ks, i);
    }
  }

  // ================================================================ category scores

  /** category_scores[category] += score for each category of one skill. */
  function AddScore(d: Scores, cats: seq<string>, v: int): Scores
    decreases |cats|
  {
    if cats == [] then d else AddTo(AddScore(d, cats[..|cats| - 1], v), cats[|cats| - 1], v)
  }

  /** The aggregate built skill by skill over the score table. */
  function CategoryTotals(tax: Taxonomy, scores: Scores): Scores
    decreases |scores|
  {
    if scores == [] then []
    else
      var (s, v) := scores[|scores| - 1];
      AddScore(CategoryTotals(tax, scores[..|scores| - 1]), GetOr(tax, s, []), v)
  }

  /** Reference definition: the sum of the scores of the skills that list the category. */
  function CategoryScore(tax: Taxonomy, scores: Scores, c: string): int
    decreases |scores|
  {
    if scores == [] then 0
    else
      var (s, v) := scores[|scores| - 1];
      CategoryScore(tax, scores[..|scores| - 1], c) + v * Count(GetOr(tax, s, []), c)
  }

  lemma {:induction false} AddScoreGet(d: Scores, cats: seq<string>, v: int, c: string)
    ensures GetOr(AddScore(d, cats, v), c, 0) == GetOr(d, c, 0) + v * Count(cats, c)
    decreases |cats|
  {
    if cats != [] {
      var init, last := cats[..|cats| - 1], cats[|cats| - 1];
      AddScoreGet(d, init, v, c);
      AddToGet(AddScore(d, init, v), last, v, c);
      MulStep(v, Count(init, c));
    }
  }

  lemma MulStep(v: int, k: nat)
    ensures v * (k + 1) == v * k + v
  {
  }

  lemma {:induction false} AddScoreKeys(d: Scores, cats: seq<string>, v: int, c: string)
    ensures HasKey(AddScore(d, cats, v), c) <==> HasKey(d, c) || c in cats
    decreases |cats|
  {
    if cats != [] {
      var init, last := cats[..|cats| - 1], cats[|cats| - 1];
      AddScoreKeys(d, init, v, c);
      AddToKeys(AddScore(d, init, v), last, v);
      assert cats == init + [last];
    }
  }

  lemma {:induction false} AddScoreDistinct(d: Scores, cats: seq<string>, v: int)
    requires DistinctKeys(d)
    ensures DistinctKeys(AddScore(d, cats, v))
    decreases |cats|
  {
    if cats != [] {
      var init, last := cats[..|cats| - 1], cats[|cats| - 1];
      AddScoreDistinct(d, init, v);
      AddToDistinct(AddScore(d, init, v), last, v);
    }
  }

  lemma {:induction false} CategoryTotalsSpec(tax: Taxonomy, scores: Scores, c: string)
    ensures GetOr(CategoryTotals(tax, scores), c, 0) == CategoryScore(tax, scores, c)
    ensures HasKey(CategoryTotals(tax, scores), c) <==>
      exists i :: 0 <= i < |scores| && c in GetOr(tax, scores[i].0, [])
    ensures DistinctKeys(CategoryTotals(tax, scores))
    decreases |scores|
  {
    if scores != [] {
      var init := scores[..|scores| - 1];
      CategoryTotalsSpec(tax, init, c);
      var cats, v := GetOr(tax, scores[|scores| - 1].0, []), scores[|scores| - 1].1;
      AddScoreGet(CategoryTotals(tax, init), cats, v, c);
      AddScoreKeys(CategoryTotals(tax, init), cats, v, c);
      AddScoreDistinct(CategoryTotals(tax, init), cats, v);
      assert forall i :: 0 <= i < |init| ==> init[i] == scores[i];
    }
  }

  /** With positive skill scores, a category's total is at least the score of any one skill listing it. */
  lemma {:induction false} CategoryScoreAtLeast(tax: Taxonomy, scores: Scores, c: string, i: nat)
    requires forall j :: 0 <= j < |scores| ==> scores[j].1 > 0
    requires i < |scores| && c in GetOr(tax, scores[i].0, [])
    ensures CategoryScore(tax, scores, c) >= scores[i].1
    decreases |scores|
  {
    var init := scores[..|scores| - 1];
    CategoryScoreNonNeg(tax, init, c);
    CountPositive(GetOr(tax, scores[|scores| - 1].0, []), c);
    if i < |scores| - 1 {
      assert init[i] == scores[i];
      CategoryScoreAtLeast(tax, init, c, i);
    }
  }

  lemma {:induction false} CategoryScoreNonNeg(tax: Taxonomy, scores: Scores, c: string)
    requires forall j :: 0 <= j < |scores| ==> scores[j].1 > 0
    ensures CategoryScore(tax, scores, c) >= 0
    decreases |scores|
  {
    if scores != [] {
      CategoryScoreNonNeg(tax, scores[..|scores| - 1], c);
    }
  }

  /** Every category of the aggregate has a positive score when every skill score is positive. */
  lemma CategoryTotalsPositive(tax: Taxonomy, scores: Scores)
    requires forall j :: 0 <= j < |scores| ==> scores[j].1 > 0
    ensures forall i :: 0 <= i < |CategoryTotals(tax, scores)| ==> CategoryTotals(tax, scores)[i].1 > 0
  {
    var tot := CategoryTotals(tax, scores);
    forall i | 0 <= i < |tot| ensures tot[i].1 > 0 {
      var c := tot[i].0;
      CategoryTotalsSpec(tax, scores, c);
      GetAt(tot, i);
      assert HasKey(tot, c);
      var j :| 0 <= j < |scores| && c in GetOr(tax, scores[j].0, []);
      CategoryScoreAtLeast(tax, scores, c, j);
    }
  }

  // ================================================================ category selection

  datatype CategoryKind = Programming | Infrastructure | DataKind | Tools | OtherKind

  const ProgrammingTerms: seq<string> := ["programming", "language", "framework"]
  const InfrastructureTerms: seq<string> := ["cloud", "infrastructure", "devops"]
  const DataTerms: seq<string> := ["data", "analytics", "machine learning", "ai"]
  const ToolTerms: seq<string> := ["tool", "software", "platform"]

  /** Some term is a substring of s. */
  predicate MentionsAny(s: string, terms: seq<string>)
  {
    exists i :: 0 <= i < |terms| && Contains(s, terms[i])
  }

  /** _get_category_type: the first rule, in a fixed order, whose term is in the lower-cased name. */
  function KindOf(category: string): CategoryKind
  {
    var c := Lower(category);
    if MentionsAny(c, ProgrammingTerms) then Programming
    else if MentionsAny(c, InfrastructureTerms) then Infrastructure
    else if MentionsAny(c, DataTerms) then DataKind
    else if MentionsAny(c, ToolTerms) then Tools
    else OtherKind
  }

  /** A rule wins over every later rule: a name with a programming term is programming whatever else it says. */
  lemma KindPriority(category: string)
    ensures MentionsAny(Lower(category), ProgrammingTerms) ==> KindOf(category) == Programming
    ensures KindOf(category) == Infrastructure ==> !MentionsAny(Lower(category), ProgrammingTerms)
    ensures KindOf(category) == DataKind ==>
      !MentionsAny(Lower(category), ProgrammingTerms) && !MentionsAny(Lower(category), InfrastructureTerms)
    ensures KindOf(category) == OtherKind <==>
      !MentionsAny(Lower(category), ProgrammingTerms + InfrastructureTerms + DataTerms + ToolTerms)
  {
    var c := Lower(category);
    var all := ProgrammingTerms + InfrastructureTerms + DataTerms + ToolTerms;
    if MentionsAny(c, all) {
      var i :| 0 <= i < |all| && Contains(c, all[i]);
      if i < 3 { assert all[i] == ProgrammingTerms[i]; }
      else if i < 6 { assert all[i] == InfrastructureTerms[i - 3]; }
      else if i < 10 { assert all[i] == DataTerms[i - 6]; }
      else { assert all[i] == ToolTerms[i - 10]; }
    }
    if KindOf(category) != OtherKind {
      if MentionsAny(c, ProgrammingTerms) {
        var i :| 0 <= i < 3 && Contains(c, ProgrammingTerms[i]); assert all[i] == ProgrammingTerms[i];
      } else if MentionsAny(c, InfrastructureTerms) {
        var i :| 0 <= i < 3 && Contains(c, InfrastructureTerms[i]); assert all[i + 3] == InfrastructureTerms[i];
      } else if MentionsAny(c, DataTerms) {
        var i :| 0 <= i < 4 && Contains(c, DataTerms[i]); assert all[i + 6] == DataTerms[i];
      } else {
        var i :| 0 <= i < 3 && Contains(c, ToolTerms[i]); assert all[i + 10] == ToolTerms[i];
      }
    }
  }

  function ScoreKey(p: (string, int)): real { p.1 as real }

  /** sorted(category_scores.items(), key=score, reverse=True). */
  function Ranked(totals: Scores): seq<(string, int)>
  {
    Sorting.SortDesc(totals, ScoreKey)
  }

  function KindsOf(cats: seq<string>): set<CategoryKind>
  {
    set i | 0 <= i < |cats| :: KindOf(cats[i])
  }

  /** One category of the first pass: taken if there is room and its kind is new or fewer than two are taken. */
  function FirstStep(st: (seq<string>, set<CategoryKind>), c: string, n: int): (seq<string>, set<CategoryKind>)
  {
    var (sel, kinds) := st;
    if |sel| >= n then st
    else if KindOf(c) !in kinds || |sel| < 2 then (sel + [c], kinds + {KindOf(c)})
    else st
  }

  /** First pass over a prefix of the ranking: (selected, category_types). */
  function FirstPass(ranked: seq<(string, int)>, n: int): (seq<string>, set<CategoryKind>)
    decreases |ranked|
  {
    if ranked == [] then ([], {})
    else FirstStep(FirstPass(ranked[..|ranked| - 1], n), ranked[|ranked| - 1].0, n)
  }

  /** One category of the second pass: appended if there is room and it is not chosen yet. */
  function SecondStep(s: seq<string>, c: string, n: int): seq<string>
  {
    if |s| >= n then s else if c !in s then s + [c] else s
  }

  /** Second pass over a prefix of the ranking, starting from the first pass's selection. */
  function SecondPass(ranked: seq<(string, int)>, n: int, sel: seq<string>): seq<string>
    decreases |ranked|
  {
    if ranked == [] then sel
    else SecondStep(SecondPass(ranked[..|ranked| - 1], n, sel), ranked[|ranked| - 1].0, n)
  }

  /** _select_top_categories on a category aggregate. */
  function SelectTop(totals: Scores, n: int): seq<string>
  {
    var ranked := Ranked(totals);
    var sel := FirstPass(ranked, n).0;
    var filled := if |sel| < n then SecondPass(ranked, n, sel) else sel;
    Sorting.Prefix(filled, n)
  }

  // ---------------------------------------------------------------- selection lemmas

  /** The first pass over one more ranked category is one more step. */
  lemma FirstPassAt(ranked: seq<(string, int)>, n: int, i: nat)
    requires i < |ranked|
    ensures FirstPass(ranked[..i + 1], n) == FirstStep(FirstPass(ranked[..i], n), ranked[i].0, n)
  {
    var r := ranked[..i + 1];
    calc {
      FirstPass(r, n);
      FirstStep(FirstPass(r[..|r| - 1], n), r[|r| - 1].0, n);
      { assert r[..|r| - 1] == ranked[..i]; }
      FirstStep(FirstPass(ranked[..i], n), ranked[i].0, n);
    }
  }

  /** The second pass over one more ranked category is one more step. */
  lemma SecondPassAt(ranked: seq<(string, int)>, n: int, sel: seq<string>, i: nat)
    requires i < |ranked|
    ensures SecondPass(ranked[..i + 1], n, sel) == SecondStep(SecondPass(ranked[..i], n, sel), ranked[i].0, n)
  {
    var r := ranked[..i + 1];
    calc {
      SecondPass(r, n, sel);
      SecondStep(SecondPass(r[..|r| - 1], n, sel), r[|r| - 1].0, n);
      { assert r[..|r| - 1] == ranked[..i]; }
      SecondStep(SecondPass(ranked[..i], n, sel), ranked[i].0, n);
    }
  }

  /** Once the first pass has n categories, the rest of the ranking changes nothing: the `break`. */
  lemma {:induction false} FirstPassStops(ranked: seq<(string, int)>, n: int, i: nat)
    requires i <= |ranked| && |FirstPass(ranked[..i], n).0| >= n
    ensures FirstPass(ranked, n) == FirstPass(ranked[..i], n)
    decreases |ranked| - i
  {
    if i < |ranked| {
      assert ranked[..i + 1][..i] == ranked[..i];
      FirstPassStops(ranked, n, i + 1);
    } else {
      assert ranked[..i] == ranked;
    }
  }

  lemma {:induction false} SecondPassStops(ranked: seq<(string, int)>, n: int, sel: seq<string>, i: nat)
    requires i <= |ranked| && |SecondPass(ranked[..i], n, sel)| >= n
    ensures SecondPass(ranked, n, sel) == SecondPass(ranked[..i], n, sel)
    decreases |ranked| - i
  {
    if i < |ranked| {
      assert ranked[..i + 1][..i] == ranked[..i];
      SecondPassStops(ranked, n, sel, i + 1);
    } else {
      assert ranked[..i] == ranked;
    }
  }

  /**
   * The first pass keeps distinct categories of the ranking in ranked order,
   * never more than n, records their kinds, and each pick after the second
   * brings a kind not seen before.
   */
  lemma {:induction false} FirstPassSpec(ranked: seq<(string, int)>, n: int)
    requires DistinctKeys(ranked)
    ensures var (sel, kinds) := FirstPass(ranked, n);
      && Distinct(sel)
      && (forall i :: 0 <= i < |sel| ==> sel[i] in Keys(ranked))
      && |sel| <= (if n < 0 then 0 else n)
      && kinds == KindsOf(sel)
      && (forall k :: 2 <= k < |sel| ==> KindOf(sel[k]) !in KindsOf(sel[..k]))
    decreases |ranked|
  {
    if ranked != [] {
      var init := ranked[..|ranked| - 1];
      var c := ranked[|ranked| - 1].0;
      assert DistinctKeys(init);
      FirstPassSpec(init, n);
      assert Keys(ranked) == Keys(init) + [c];
      FirstStepSpec(FirstPass(init, n).0, FirstPass(init, n).1, Keys(init), c, n);
    }
  }

  /** One step of the first pass keeps what FirstPassSpec states, over keys extended by a new one. */
  lemma FirstStepSpec(sel: seq<string>, kinds: set<CategoryKind>, ks: seq<string>, c: string, n: int)
    requires Distinct(sel) && (forall i :: 0 <= i < |sel| ==> sel[i] in ks) && c !in ks
    requires |sel| <= (if n < 0 then 0 else n) && kinds == KindsOf(sel)
    requires forall k :: 2 <= k < |sel| ==> KindOf(sel[k]) !in KindsOf(sel[..k])
    ensures var (sel', kinds') := FirstStep((sel, kinds), c, n);
      && Distinct(sel')
      && (forall i :: 0 <= i < |sel'| ==> sel'[i] in ks + [c])
      && |sel'| <= (if n < 0 then 0 else n)
      && kinds' == KindsOf(sel')
      && (forall k :: 2 <= k < |sel'| ==> KindOf(sel'[k]) !in KindsOf(sel'[..k]))
  {
    if |sel| < n && (KindOf(c) !in kinds || |sel| < 2) {
      var sel' := sel + [c];
      assert sel'[..|sel|] == sel;
      KindsOfSnoc(sel, c);
      forall k | 2 <= k < |sel'| ensures KindOf(sel'[k]) !in KindsOf(sel'[..k]) {
        if k < |sel| { assert sel'[..k] == sel[..k]; }
      }
    }
  }

  lemma KindsOfSnoc(sel: seq<string>, c: string)
    ensures KindsOf(sel + [c]) == KindsOf(sel) + {KindOf(c)}
  {
    var s := sel + [c];
    forall x | x in KindsOf(s) ensures x in KindsOf(sel) + {KindOf(c)} {
      var i :| 0 <= i < |s| && KindOf(s[i]) == x;
      if i < |sel| { assert s[i] == sel[i]; }
    }
    forall x | x in KindsOf(sel) + {KindOf(c)} ensures x in KindsOf(s) {
      if x in KindsOf(sel) {
        var i :| 0 <= i < |sel| && KindOf(sel[i]) == x;
        assert s[i] == sel[i];
      } else {
        assert s[|sel|] == c;
      }
    }
  }

  /** The categories of `ks` that are not in `sel`, in order. */
  function Unselected(ks: seq<string>, sel: seq<string>): seq<string>
    decreases |ks|
  {
    if ks == [] then []
    else Unselected(ks[..|ks| - 1], sel) + (if ks[|ks| - 1] !in sel then [ks[|ks| - 1]] else [])
  }

  /** The second pass appends the unselected categories in ranked order until n are chosen. */
  lemma {:induction false} SecondPassSpec(ranked: seq<(string, int)>, n: int, sel: seq<string>)
    requires DistinctKeys(ranked) && |sel| <= n
    ensures SecondPass(ranked, n, sel) == sel + Sorting.Prefix(Unselected(Keys(ranked), sel), n - |sel|)
    decreases |ranked|
  {
    if ranked != [] {
      var init := ranked[..|ranked| - 1];
      var c := ranked[|ranked| - 1].0;
      assert DistinctKeys(init);
      SecondPassSpec(init, n, sel);
      assert Keys(ranked) == Keys(init) + [c];
      assert Keys(ranked)[..|Keys(ranked)| - 1] == Keys(init);
      UnselectedMembers(Keys(init), sel, c);
      assert c !in Keys(init);
      SecondPassStep(Unselected(Keys(init), sel), sel, c, n);
    }
  }

  /** One step of the second pass, on the unselected list so far. */
  lemma SecondPassStep(u: seq<string>, sel: seq<string>, c: string, n: int)
    requires |sel| <= n && c !in u
    ensures var p := sel + Sorting.Prefix(u, n - |sel|);
      var u' := u + (if c !in sel then [c] else []);
      (if |p| >= n then p else if c !in p then p + [c] else p) == sel + Sorting.Prefix(u', n - |sel|)
  {
    var m := n - |sel|;
    var p := sel + Sorting.Prefix(u, m);
    var u' := u + (if c !in sel then [c] else []);
    if |p| >= n {
      assert Sorting.Prefix(u', m) == u'[..m] == u[..m];
    } else {
      assert Sorting.Prefix(u, m) == u;
      assert c in p <==> c in sel;
      if c !in sel {
        assert Sorting.Prefix(u', m) == u';
      } else {
        assert u' == u;
      }
    }
  }

  lemma {:induction false} UnselectedMembers(ks: seq<string>, sel: seq<string>, x: string)
    ensures x in Unselected(ks, sel) <==> x in ks && x !in sel
    decreases |ks|
  {
    if ks != [] {
      UnselectedMembers(ks[..|ks| - 1], sel, x);
      assert ks == ks[..|ks| - 1] + [ks[|ks| - 1]];
    }
  }

  /** The categories of `ks` that are in `sel`, in order. */
  function Selected(ks: seq<string>, sel: seq<string>): seq<string>
    decreases |ks|
  {
    if ks == [] then []
    else Selected(ks[..|ks| - 1], sel) + (if ks[|ks| - 1] in sel then [ks[|ks| - 1]] else [])
  }

  lemma {:induction false} SelectedSplit(ks: seq<string>, sel: seq<string>)
    ensures |Selected(ks, sel)| + |Unselected(ks, sel)| == |ks|
    decreases |ks|
  {
    if ks != [] { SelectedSplit(ks[..|ks| - 1], sel); }
  }

  lemma {:induction false} SelectedMembers(ks: seq<string>, sel: seq<string>, x: string)
    ensures x in Selected(ks, sel) <==> x in ks && x in sel
    decreases |ks|
  {
    if ks != [] {
      SelectedMembers(ks[..|ks| - 1], sel, x);
      assert ks == ks[..|ks| - 1] + [ks[|ks| - 1]];
    }
  }

  lemma {:induction false} SelectedDistinct(ks: seq<string>, sel: seq<string>)
    requires Distinct(ks)
    ensures Distinct(Selected(ks, sel))
    decreases |ks|
  {
    if ks != [] {
      var init := ks[..|ks| - 1];
      assert Distinct(init);
      SelectedDistinct(init, sel);
      SelectedMembers(init, sel, ks[|ks| - 1]);
    }
  }

  /** For distinct keys and a distinct selection drawn from them, the unselected ones number the rest. */
  lemma UnselectedCount(ks: seq<string>, sel: seq<string>)
    requires Distinct(ks) && Distinct(sel)
    requires forall i :: 0 <= i < |sel| ==> sel[i] in ks
    ensures |Unselected(ks, sel)| == |ks| - |sel|
  {
    var chosen := Selected(ks, sel);
    SelectedSplit(ks, sel);
    SelectedDistinct(ks, sel);
    forall x ensures x in Elements(chosen) <==> x in Elements(sel) {
      SelectedMembers(ks, sel, x);
    }
    assert Elements(chosen) == Elements(sel);
    DistinctCard(chosen);
    DistinctCard(sel);
  }

  lemma RankedKeys(totals: Scores)
    requires DistinctKeys(totals)
    ensures DistinctKeys(Ranked(totals))
    ensures |Ranked(totals)| == |totals|
    ensures forall c :: c in Keys(Ranked(totals)) <==> c in Keys(totals)
  {
    var r := Ranked(totals);
    Sorting.SortDescInjective(totals, ScoreKey, (p: (string, int)) => p.0);
    Sorting.SortDescMembers(totals, ScoreKey);
    forall c ensures c in Keys(r) <==> c in Keys(totals) {
      if c in Keys(r) {
        var i :| 0 <= i < |r| && Keys(r)[i] == c;
        assert r[i] in r;
        var j :| 0 <= j < |totals| && totals[j] == r[i];
        assert Keys(totals)[j] == c;
      }
      if c in Keys(totals) {
        var j :| 0 <= j < |totals| && Keys(totals)[j] == c;
        assert totals[j] in totals;
        var i :| 0 <= i < |r| && r[i] == totals[j];
        assert Keys(r)[i] == c;
      }
    }
  }

  lemma DistinctKeysOf(d: Scores)
    requires DistinctKeys(d)
    ensures Distinct(Keys(d))
  {
  }

  /** The selection before the final cut: distinct categories of the ranking, min(n, all) of them. */
  lemma FilledSpec(ranked: seq<(string, int)>, n: int)
    requires DistinctKeys(ranked)
    ensures var sel := FirstPass(ranked, n).0;
      var filled := if |sel| < n then SecondPass(ranked, n, sel) else sel;
      && Distinct(filled)
      && (forall i :: 0 <= i < |filled| ==> filled[i] in Keys(ranked))
      && (n >= 0 ==> |filled| == if n < |ranked| then n else |ranked|)
  {
    FirstPassSpec(ranked, n);
    var sel := FirstPass(ranked, n).0;
    var ks := Keys(ranked);
    DistinctKeysOf(ranked);
    UnselectedCount(ks, sel);
    if |sel| < n {
      SecondPassSpec(ranked, n, sel);
      var u := Unselected(ks, sel);
      UnselectedDistinct(ks, sel);
      var tail := Sorting.Prefix(u, n - |sel|);
      forall i | 0 <= i < |tail| ensures tail[i] in ks && tail[i] !in sel {
        assert tail[i] == u[i];
        UnselectedMembers(ks, sel, u[i]);
      }
      DistinctAppend(sel, tail);
    }
  }

  /**
   * _select_top_categories returns distinct categories of the aggregate, exactly
   * min(n, number of categories) of them for n >= 0.
   */
  lemma SelectTopSpec(totals: Scores, n: int)
    requires DistinctKeys(totals)
    ensures var r := SelectTop(totals, n);
      && Distinct(r)
      && (forall i :: 0 <= i < |r| ==> r[i] in Keys(totals))
      && (n >= 0 ==> |r| == if n < |totals| then n else |totals|)
  {
    var ranked := Ranked(totals);
    RankedKeys(totals);
    FilledSpec(ranked, n);
    var sel := FirstPass(ranked, n).0;
    var filled := if |sel| < n then SecondPass(ranked, n, sel) else sel;
    var r := Sorting.Prefix(filled, n);
    assert forall i :: 0 <= i < |r| ==> r[i] == filled[i];
  }

  lemma {:induction false} UnselectedDistinct(ks: seq<string>, sel: seq<string>)
    requires Distinct(ks)
    ensures Distinct(Unselected(ks, sel))
    decreases |ks|
  {
    if ks != [] {
      var init := ks[..|ks| - 1];
      assert Distinct(init);
      UnselectedDistinct(init, sel);
      UnselectedMembers(init, sel, ks[|ks| - 1]);
    }
  }

  /** Whatever their kinds, the two highest-ranked categories are the first two picks (n >= 2). */
  lemma SelectTopLeaders(totals: Scores, n: int)
    requires DistinctKeys(totals) && n >= 2 && |totals| >= 2
    ensures |SelectTop(totals, n)| >= 2
    ensures SelectTop(totals, n)[0] == Ranked(totals)[0].0
    ensures SelectTop(totals, n)[1] == Ranked(totals)[1].0
  {
    var ranked := Ranked(totals);
    RankedKeys(totals);
    SelectTopSpec(totals, n);
    FirstPassPrefix(ranked, n, 2);
    var sel := FirstPass(ranked, n).0;
    var filled := if |sel| < n then SecondPass(ranked, n, sel) else sel;
    if |sel| < n { SecondPassSpec(ranked, n, sel); }
    assert filled[..|sel|] == sel;
  }

  /** The first pass always takes the first two ranked categories when n >= 2. */
  lemma {:induction false} FirstPassPrefix(ranked: seq<(string, int)>, n: int, k: nat)
    requires 2 <= k <= |ranked| && n >= 2
    ensures |FirstPass(ranked, n).0| >= 2
    ensures FirstPass(ranked, n).0[0] == ranked[0].0 && FirstPass(ranked, n).0[1] == ranked[1].0
    decreases |ranked|
  {
    if |ranked| == 2 {
      assert ranked[..1][..0] == [];
      assert ranked[..2][..1] == ranked[..1];
    } else {
      var init := ranked[..|ranked| - 1];
      FirstPassPrefix(init, n, 2);
      var sel := FirstPass(init, n).0;
      assert FirstPass(ranked, n).0[..|sel|] == sel;
    }
  }

  // ================================================================ results

  /** [skill for skill in category_skills if skill in skill_scores]. */
  function Scored(members: seq<string>, scores: Scores): (r: seq<string>)
    ensures forall i :: 0 <= i < |r| ==> r[i] in members && HasKey(scores, r[i])
    ensures forall x :: x in members && HasKey(scores, x) ==> x in r
    decreases |members|
  {
    if members == [] then []
    else
      var r := Scored(members[..|members| - 1], scores);
      var x := members[|members| - 1];
      assert forall y :: y in members ==> y in members[..|members| - 1] || y == x;
      if HasKey(scores, x) then r + [x] else r
  }

  /** The sort key of one category's skills: their score. */
  function ByScore(scores: Scores): string -> real
  {
    s => GetOr(scores, s, 0) as real
  }

  /** The up-to-four best-scored members of one category. */
  function TopMembers(members: seq<string>, scores: Scores): seq<string>
  {
    Sorting.Prefix(Sorting.SortDesc(Scored(members, scores), ByScore(scores)), SkillsPerCategory)
  }

  /**
   * The picked members are members that scored, best first: the first
   * min(4, scored) of them, and no scored member left out scores higher
   * than a kept one.
   */
  lemma TopMembersOrder(members: seq<string>, scores: Scores)
    ensures var top := TopMembers(members, scores);
      && |top| <= SkillsPerCategory
      && |top| == (if |Scored(members, scores)| < SkillsPerCategory then |Scored(members, scores)| else SkillsPerCategory)
      && (top == [] <==> Scored(members, scores) == [])
      && (forall j :: 0 <= j < |top| ==> top[j] in members && HasKey(scores, top[j]))
      && (forall j, k :: 0 <= j < k < |top| ==> GetOr(scores, top[j], 0) >= GetOr(scores, top[k], 0))
      && (forall m :: m in Scored(members, scores) && m !in top ==>
            forall j :: 0 <= j < |top| ==> GetOr(scores, m, 0) <= GetOr(scores, top[j], 0))
  {
    var scored := Scored(members, scores);
    var sorted := Sorting.SortDesc(scored, ByScore(scores));
    var top := Sorting.Prefix(sorted, SkillsPerCategory);
    Sorting.SortDescSpec(scored, ByScore(scores));
    Sorting.SortDescMembers(scored, ByScore(scores));
    forall j | 0 <= j < |top| ensures top[j] in members && HasKey(scores, top[j]) {
      assert top[j] == sorted[j];
      assert sorted[j] in sorted;
    }
    forall j, k | 0 <= j < k < |top| ensures GetOr(scores, top[j], 0) >= GetOr(scores, top[k], 0) {
      assert top[j] == sorted[j] && top[k] == sorted[k];
      assert ByScore(scores)(sorted[j]) >= ByScore(scores)(sorted[k]);
    }
    forall m | m in scored && m !in top ensures forall j :: 0 <= j < |top| ==> GetOr(scores, m, 0) <= GetOr(scores, top[j], 0) {
      assert m in sorted;
      var p :| 0 <= p < |sorted| && sorted[p] == m;
      assert p >= |top|;
      forall j | 0 <= j < |top| ensures GetOr(scores, m, 0) <= GetOr(scores, top[j], 0) {
        assert top[j] == sorted[j];
        assert ByScore(scores)(sorted[j]) >= ByScore(scores)(sorted[p]);
      }
    }
  }

  /** format_skill_for_template: "Category [a, b]". */
  function FormatSkill(category: string, skills: seq<string>): string
  {
    category + " [" + Join(skills, ", ") + "]"
  }

  /** Total length of a list of strings. */
  function TotalLength(xs: seq<string>): nat
  {
    if xs == [] then 0 else |xs[0]| + TotalLength(xs[1..])
  }

  /** The formatted length: the category, " [", the skills with ", " between them, and "]". */
  lemma {:induction false} FormatLength(category: string, skills: seq<string>)
    requires skills != []
    ensures |FormatSkill(category, skills)| == |category| + 3 + TotalLength(skills) + 2 * (|skills| - 1)
  {
    JoinLength(skills);
  }

  lemma {:induction false} JoinLength(skills: seq<string>)
    requires skills != []
    ensures |Join(skills, ", ")| == TotalLength(skills) + 2 * (|skills| - 1)
    decreases |skills|
  {
    if |skills| > 1 { JoinLength(skills[1..]); }
  }

  /** A longer prefix of the skills never formats shorter. */
  lemma FormatPrefixGrows(category: string, skills: seq<string>, j: nat, k: nat)
    requires 1 <= j <= k <= |skills|
    ensures |FormatSkill(category, skills[..j])| <= |FormatSkill(category, skills[..k])|
  {
    FormatLength(category, skills[..j]);
    FormatLength(category, skills[..k]);
    TotalLengthPrefix(skills, j, k);
  }

  lemma {:induction false} TotalLengthPrefix(s: seq<string>, j: nat, k: nat)
    requires j <= k <= |s|
    ensures TotalLength(s[..j]) <= TotalLength(s[..k])
    decreases j
  {
    if j > 0 {
      assert s[..j][1..] == s[1..][..j - 1];
      assert s[..k][1..] == s[1..][..k - 1];
      TotalLengthPrefix(s[1..], j - 1, k - 1);
    } else {
      TotalLengthNonNeg(s[..k]);
    }
  }

  lemma TotalLengthNonNeg(s: seq<string>)
    ensures TotalLength(s) >= 0
  {
  }

  /** One entry of recommend_skills: the category with its top members, if any scored. */
  function EntryFor(index: CategoryIndex, c: string, scores: Scores): seq<(string, seq<string>)>
  {
    var relevant := TopMembers(GetOr(index, c, []), scores);
    if relevant != [] then [(c, relevant)] else []
  }

  /** The entries of recommend_skills for the selected categories, in order. */
  function EntriesFor(index: CategoryIndex, top: seq<string>, scores: Scores): seq<(string, seq<string>)>
    decreases |top|
  {
    if top == [] then []
    else EntriesFor(index, top[..|top| - 1], scores) + EntryFor(index, top[|top| - 1], scores)
  }

  lemma EntriesForAt(index: CategoryIndex, top: seq<string>, scores: Scores, i: nat)
    requires i < |top|
    ensures EntriesFor(index, top[..i + 1], scores) == EntriesFor(index, top[..i], scores) + EntryFor(index, top[i], scores)
  {
    var r := top[..i + 1];
    calc {
      EntriesFor(index, r, scores);
      EntriesFor(index, r[..|r| - 1], scores) + EntryFor(index, r[|r| - 1], scores);
      { assert r[..|r| - 1] == top[..i]; }
      EntriesFor(index, top[..i], scores) + EntryFor(index, top[i], scores);
    }
  }

  /** When each selected category yields one entry, the entries line up with the selection. */
  lemma {:induction false} EntriesForEach(index: CategoryIndex, top: seq<string>, scores: Scores)
    requires forall i :: 0 <= i < |top| ==> |EntryFor(index, top[i], scores)| == 1
    ensures var r := EntriesFor(index, top, scores);
      |r| == |top| && forall i :: 0 <= i < |r| ==> r[i] == EntryFor(index, top[i], scores)[0]
    decreases |top|
  {
    if top != [] {
      var init := top[..|top| - 1];
      EntriesForEach(index, init, scores);
      var r0 := EntriesFor(index, init, scores);
      var r := r0 + EntryFor(index, top[|top| - 1], scores);
      forall i | 0 <= i < |r| ensures r[i] == EntryFor(index, top[i], scores)[0] {
        if i < |r0| { assert r[i] == r0[i] && init[i] == top[i]; }
      }
    }
  }

  // ================================================================ the recommender object

  /**
   * What recommend_skills returns for a taxonomy and its reverse index: the
   * selected categories, each with its best-scoring member skills.
   */
  function RecommendFor(tax: Taxonomy, index: CategoryIndex, jobDescription: string, numCategories: int): seq<(string, seq<string>)>
  {
    var scores := KeptScores(tax, Lower(jobDescription));
    EntriesFor(index, SelectTop(CategoryTotals(tax, scores), numCategories), scores)
  }

  class SkillRecommender {
    const skillsToCategories: Taxonomy
    var categoriesToSkills: CategoryIndex

    ghost predicate Valid()
      reads this
    {
      DistinctKeys(skillsToCategories) && categoriesToSkills == IndexOf(skillsToCategories)
    }

    constructor (taxonomy: Taxonomy)
      requires DistinctKeys(taxonomy)
      ensures Valid() && skillsToCategories == taxonomy
    {
      skillsToCategories := taxonomy;
      new;
      var idx := BuildCategoryIndex();
      categoriesToSkills := idx;
    }

    /** _build_category_index: append each skill under each of its categories. */
    method BuildCategoryIndex() returns (idx: CategoryIndex)
      ensures idx == IndexOf(skillsToCategories)
    {
      var tax := skillsToCategories;
      idx := [];
      var i := 0;
      while i < |tax|
        invariant 0 <= i <= |tax|
        invariant idx == IndexOf(tax[..i])
      {
        var (skill, cats) := tax[i];
        ghost var before := idx;
        var j := 0;
        while j < |cats|
          invariant 0 <= j <= |cats|
          invariant idx == AddUnder(before, skill, cats[..j])
        {
          idx := AppendTo(idx, cats[j], skill);
          assert cats[..j + 1][..j] == cats[..j];
          j := j + 1;
        }
        assert cats[..j] == cats;
        assert tax[..i + 1][..i] == tax[..i];
        i := i + 1;
      }
      assert tax[..i] == tax;
    }

    /** _calculate_semantic_score: word hits, then synonym-table hits. */
    method CalculateSemanticScore(skill: string, jobText: string) returns (score: nat)
      ensures score == SemanticScore(skill, jobText)
    {
      score := 0;
      var words := Words(skill);
      for i := 0 to |words|
        invariant score == WordHit * CountFound(words[..i], jobText)
      {
        CountFoundAt(words, jobText, i);
        if Contains(jobText, words[i]) {
          score := score + WordHit;
        }
      }
      assert words[..|words|] == words;
      score := AddSynonymHits(skill, jobText, Synonyms, score);
    }

    /** The synonym-table loop of _calculate_semantic_score, over the rows of `table`. */
    method AddSynonymHits(skill: string, jobText: string, table: seq<(string, seq<string>)>, score0: nat) returns (score: nat)
      ensures score == score0 + SynonymHits(skill, jobText, table)
    {
      score := score0;
      for k := 0 to |table|
        invariant score == score0 + SynonymHits(skill, jobText, table[..k])
      {
        SynonymHitsAt(skill, jobText, table, k);
        var (base, terms) := table[k];
        ghost var before := score;
        if Contains(Lower(skill), base) {
          for m := 0 to |terms|
            invariant score == before + SynonymHit * CountFound(terms[..m], jobText)
          {
            CountFoundAt(terms, jobText, m);
            if Contains(jobText, terms[m]) {
              score := score + SynonymHit;
            }
          }
          assert terms[..|terms|] == terms;
        }
      }
      assert table[..|table|] == table;
    }

    /** _calculate_skill_relevance. */
    method CalculateSkillRelevance(skill: string, jobText: string) returns (score: nat)
      ensures score == Relevance(skill, jobText)
    {
      var skillLower := Lower(skill);
      score := 0;
      if Contains(jobText, skillLower) {
        score := score + DirectMention;
      }
      if WholeWordIn(jobText, skillLower) {
        score := score + WholeWordMatch;
      }
      var semantic := CalculateSemanticScore(skillLower, jobText);
      score := score + semantic;
    }

    /** _score_skills: the positive relevances, in taxonomy order. */
    method ScoreSkills(jobDescription: string) returns (scores: Scores)
      ensures scores == KeptScores(skillsToCategories, Lower(jobDescription))
    {
      var tax := skillsToCategories;
      var jobText := Lower(jobDescription);
      scores := [];
      var i := 0;
      while i < |tax|
        invariant 0 <= i <= |tax|
        invariant scores == KeptScores(tax[..i], jobText)
      {
        var skill := tax[i].0;
        var score := CalculateSkillRelevance(skill, jobText);
        if score > 0 {
          scores := Put(scores, skill, score);
        }
        KeptScoresStep(tax, i, jobText);
        i := i + 1;
      }
      assert tax[..i] == tax;
    }

    /** _score_categories: add each kept skill's score to each of its categories. */
    method ScoreCategories(skillScores: Scores) returns (totals: Scores)
      ensures totals == CategoryTotals(skillsToCategories, skillScores)
    {
      totals := [];
      var i := 0;
      while i < |skillScores|
        invariant 0 <= i <= |skillScores|
        invariant totals == CategoryTotals(skillsToCategories, skillScores[..i])
      {
        var (skill, score) := skillScores[i];
        var cats := GetOr(skillsToCategories, skill, []);
        ghost var before := totals;
        var j := 0;
        while j < |cats|
          invariant 0 <= j <= |cats|
          invariant totals == AddScore(before, cats[..j], score)
        {
          totals := Put(totals, cats[j], GetOr(totals, cats[j], 0) + score);
          assert cats[..j + 1][..j] == cats[..j];
          j := j + 1;
        }
        assert cats[..j] == cats;
        assert skillScores[..i + 1][..i] == skillScores[..i];
        i := i + 1;
      }
      assert skillScores[..i] == skillScores;
    }

    /** _select_top_categories: a diversity pass, a filling pass, then the first n. */
    method SelectTopCategories(categoryScores: Scores, numCategories: int) returns (selected: seq<string>)
      ensures selected == SelectTop(categoryScores, numCategories)
    {
      var ranked := Ranked(categoryScores);
      selected := [];
      var kinds: set<CategoryKind> := {};
      var i := 0;
      while i < |ranked|
        invariant 0 <= i <= |ranked|
        invariant (selected, kinds) == FirstPass(ranked[..i], numCategories)
      {
        if |selected| >= numCategories {
          FirstPassStops(ranked, numCategories, i);
          break;
        }
        FirstPassAt(ranked, numCategories, i);
        var category := ranked[i].0;
        var kind := KindOf(category);
        if kind !in kinds || |selected| < 2 {
          selected := selected + [category];
          kinds := kinds + {kind};
        }
        i := i + 1;
      }
      if i == |ranked| { assert ranked[..i] == ranked; }
      assert selected == FirstPass(ranked, numCategories).0;
      if |selected| < numCategories {
        ghost var first := selected;
        var k := 0;
        while k < |ranked|
          invariant 0 <= k <= |ranked|
          invariant selected == SecondPass(ranked[..k], numCategories, first)
        {
          if |selected| >= numCategories {
            SecondPassStops(ranked, numCategories, first, k);
            break;
          }
          SecondPassAt(ranked, numCategories, first, k);
          var category := ranked[k].0;
          if category !in selected {
            selected := selected + [category];
          }
          k := k + 1;
        }
        if k == |ranked| { assert ranked[..k] == ranked; }
      }
      selected := Sorting.Prefix(selected, numCategories);
    }

    /** recommend_skills: the recommendation for a job description, as a function of the object. */
    function Recommendations(jobDescription: string, numCategories: int): seq<(string, seq<string>)>
      reads this
    {
      RecommendFor(skillsToCategories, categoriesToSkills, jobDescription, numCategories)
    }

    /** recommend_skills: the three scoring stages, then one entry per selected category. */
    method RecommendSkills(jobDescription: string, numCategories: int) returns (result: seq<(string, seq<string>)>)
      ensures result == Recommendations(jobDescription, numCategories)
    {
      var skillScores := ScoreSkills(jobDescription);
      var categoryScores := ScoreCategories(skillScores);
      var top := SelectTopCategories(categoryScores, numCategories);
      result := [];
      var i := 0;
      while i < |top|
        invariant 0 <= i <= |top|
        invariant result == EntriesFor(categoriesToSkills, top[..i], skillScores)
      {
        EntriesForAt(categoriesToSkills, top, skillScores, i);
        var category := top[i];
        var categorySkills := GetOr(categoriesToSkills, category, []);
        var relevant := TopMembers(categorySkills, skillScores);
        if relevant != [] {
          result := result + [(category, relevant)];
        }
        i := i + 1;
      }
      assert top[..i] == top;
    }

    /**
     * The recommendation holds at most n categories in selection order, each with
     * one to four of its member skills that scored, best first; no selected
     * category is ever dropped.
     */
    lemma RecommendationsSpec(jobDescription: string, numCategories: int)
      requires Valid()
      ensures var result := Recommendations(jobDescription, numCategories);
        var top := SelectTop(CategoryTotals(skillsToCategories, KeptScores(skillsToCategories, Lower(jobDescription))), numCategories);
        |result| == |top| && forall i :: 0 <= i < |result| ==> result[i].0 == top[i]
      ensures numCategories >= 0 ==> |Recommendations(jobDescription, numCategories)| <= numCategories
      ensures var result := Recommendations(jobDescription, numCategories);
        forall i :: 0 <= i < |result| ==> EntryOk(result[i], Lower(jobDescription))
    {
      var t := Lower(jobDescription);
      var scores := KeptScores(skillsToCategories, t);
      var totals := CategoryTotals(skillsToCategories, scores);
      var top := SelectTop(totals, numCategories);
      CategoryTotalsDistinct(scores);
      SelectTopSpec(totals, numCategories);
      EntriesForSpec(top, scores, t, totals);
    }

    /** Every selected category gets an entry, and every entry is well formed. */
    lemma EntriesForSpec(top: seq<string>, scores: Scores, t: string, totals: Scores)
      requires Valid() && scores == KeptScores(skillsToCategories, t)
      requires totals == CategoryTotals(skillsToCategories, scores)
      requires forall i :: 0 <= i < |top| ==> top[i] in Keys(totals)
      ensures var r := EntriesFor(categoriesToSkills, top, scores);
        && |r| == |top| && (forall i :: 0 <= i < |r| ==> r[i].0 == top[i])
        && (forall i :: 0 <= i < |r| ==> EntryOk(r[i], t))
    {
      forall i | 0 <= i < |top|
        ensures var e := EntryFor(categoriesToSkills, top[i], scores); |e| == 1 && e[0].0 == top[i] && EntryOk(e[0], t)
      {
        EntryForSpec(top[i], scores, t, totals);
      }
      EntriesForEach(categoriesToSkills, top, scores);
    }

    /** A selected category gets exactly one entry, and it is well formed. */
    lemma EntryForSpec(c: string, scores: Scores, t: string, totals: Scores)
      requires Valid() && scores == KeptScores(skillsToCategories, t)
      requires totals == CategoryTotals(skillsToCategories, scores) && c in Keys(totals)
      ensures var e := EntryFor(categoriesToSkills, c, scores);
        |e| == 1 && e[0].0 == c && EntryOk(e[0], t)
    {
      TopMembersSpec(c, scores, t);
      NonEmptyEntry(c, scores, t, totals);
    }

    ghost predicate EntryOk(entry: (string, seq<string>), t: string)
      reads this
    {
      var (c, skills) := entry;
      && 1 <= |skills| <= SkillsPerCategory
      && (forall j :: 0 <= j < |skills| ==>
            skills[j] in GetOr(categoriesToSkills, c, [])
            && c in GetOr(skillsToCategories, skills[j], [])
            && Relevance(skills[j], t) > 0)
      && (forall j, k :: 0 <= j < k < |skills| ==> Relevance(skills[j], t) >= Relevance(skills[k], t))
      && (var scored := Scored(GetOr(categoriesToSkills, c, []), KeptScores(skillsToCategories, t));
          |skills| == if |scored| < SkillsPerCategory then |scored| else SkillsPerCategory)
      && (forall m :: m in GetOr(categoriesToSkills, c, []) && Relevance(m, t) > 0 && m !in skills ==>
            forall j :: 0 <= j < |skills| ==> Relevance(m, t) <= Relevance(skills[j], t))
    }

    lemma CategoryTotalsDistinct(scores: Scores)
      ensures DistinctKeys(CategoryTotals(skillsToCategories, scores))
    {
      CategoryTotalsSpec(skillsToCategories, scores, "");
    }

    /** The kept members of a category, sorted and cut to four, are members that scored, best first. */
    lemma TopMembersSpec(c: string, scores: Scores, t: string)
      requires Valid() && scores == KeptScores(skillsToCategories, t)
      ensures var top := TopMembers(GetOr(categoriesToSkills, c, []), scores);
        top != [] ==> EntryOk((c, top), t)
      ensures var top := TopMembers(GetOr(categoriesToSkills, c, []), scores);
        top == [] <==> Scored(GetOr(categoriesToSkills, c, []), scores) == []
    {
      var members := GetOr(categoriesToSkills, c, []);
      var top := TopMembers(members, scores);
      TopMembersOrder(members, scores);
      forall j | 0 <= j < |top|
        ensures c in GetOr(skillsToCategories, top[j], []) && Relevance(top[j], t) > 0
        ensures GetOr(scores, top[j], 0) == Relevance(top[j], t)
      {
        KeptScoresSpec(skillsToCategories, t, top[j]);
        GetSpec(scores, top[j]);
        IndexMembership(skillsToCategories, c, top[j]);
      }
      forall m | m in members && Relevance(m, t) > 0
        ensures m in Scored(members, scores) && GetOr(scores, m, 0) == Relevance(m, t)
      {
        ScoredMember(c, scores, t, m);
      }
    }

    /** A member of a category with a positive relevance is scored, with that relevance. */
    lemma ScoredMember(c: string, scores: Scores, t: string, m: string)
      requires Valid() && scores == KeptScores(skillsToCategories, t)
      requires m in GetOr(categoriesToSkills, c, []) && Relevance(m, t) > 0
      ensures m in Scored(GetOr(categoriesToSkills, c, []), scores) && GetOr(scores, m, 0) == Relevance(m, t)
    {
      IndexMembership(skillsToCategories, c, m);
      assert c in GetOr(skillsToCategories, m, []);
      GetSpec(skillsToCategories, m);
      assert HasKey(skillsToCategories, m);
      KeptScoresSpec(skillsToCategories, t, m);
      assert Get(scores, m) == Some(Relevance(m, t));
      GetSpec(scores, m);
    }

    /** A selected category always has at least one member that scored. */
    lemma NonEmptyEntry(c: string, scores: Scores, t: string, totals: Scores)
      requires Valid() && scores == KeptScores(skillsToCategories, t)
      requires totals == CategoryTotals(skillsToCategories, scores) && c in Keys(totals)
      ensures Scored(GetOr(categoriesToSkills, c, []), scores) != []
    {
      CategoryTotalsSpec(skillsToCategories, scores, c);
      var i :| 0 <= i < |scores| && c in GetOr(skillsToCategories, scores[i].0, []);
      var s := scores[i].0;
      KeptScoresSpec(skillsToCategories, t, s);
      KeysMember(scores, i);
      IndexMembership(skillsToCategories, c, s);
      assert s in Scored(GetOr(categoriesToSkills, c, []), scores);
    }
  }

  lemma KeysMember(d: Scores, i: nat)
    requires i < |d|
    ensures HasKey(d, d[i].0)
  {
    assert Keys(d)[i] == d[i].0;
  }
}
