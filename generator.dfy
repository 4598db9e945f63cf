/**
 * The resume generator of src/core/generator.py: it picks the default number
 * of recommended bullets for each known role, numbers the skill
 * recommendations, flattens both into template keys and merges them with the
 * candidate's other fields and the parsed job description.
 *
 * Reading files, loading workbooks and rendering the template are outside
 * the model: the candidate dict, the skills taxonomy and the foreign models
 * are parameters, and the result is the dict handed to the renderer.
 */
module Generator {
  import opened Wrappers
  import opened Text
  import opened Assoc
  import Sorting
  import Recommender
  import Skills
  import JobParser
  import StringOrder

  type Bullet = Recommender.Bullet

  /** A value of the candidate dict or of the merged data: text, a list of texts, or the bullets grouped by role. */
  datatype Value = Str(s: string) | List(items: seq<string>) | RoleBullets(byRole: Dict<string, seq<Bullet>>)

  /** DEFAULT_COUNTS, in its insertion order. */
  const DefaultCounts: Dict<string, int> := [("Nodelink", 5), ("MAMM", 5), ("FactCheck", 2), ("Medical Classifier", 1)]

  /** `num_categories=4` in the call to recommend_skills. */
  const SkillCategories := 4

  /** The prefix of the skill keys SKILL_1, SKILL_2, ... */
  const SkillBase := "SKILL"

  function Min(a: int, b: int): (m: int)
    ensures m <= a && m <= b && (m == a || m == b)
  {
    if a <= b then a else b
  }

  // ================================================================ the candidate

  /** `candidate.get("bullets")` when it is the role dict, and {} when the key is absent. */
  function BulletsByRole(candidate: Dict<string, Value>): Dict<string, seq<Bullet>>
  {
    var v := Get(candidate, "bullets");
    if v.Some? && v.value.RoleBullets? then v.value.byRole else []
  }

  /**
   * What the code relies on of the candidate dict: its keys and those of the
   * role dict are unique, as in any Python dict, and a "bullets" entry, when
   * there is one, is the role dict (anything else would fail on `.get` or
   * `.items()`).
   */
  predicate CandidateOk(candidate: Dict<string, Value>)
  {
    && DistinctKeys(candidate)
    && (Get(candidate, "bullets").None? || Get(candidate, "bullets").value.RoleBullets?)
    && DistinctKeys(BulletsByRole(candidate))
  }

  /** Every bullet record has the "bullet" field that `item['bullet']` reads. */
  predicate HaveText(byRole: Dict<string, seq<Bullet>>)
  {
    forall j, i :: 0 <= j < |byRole| && 0 <= i < |byRole[j].1| ==> HasKey(byRole[j].1[i].fields, "bullet")
  }

  /** other_fields: the candidate's entries other than "bullets", in their order. */
  function OtherFields(candidate: Dict<string, Value>): Dict<string, Value>
    decreases |candidate|
  {
    if candidate == [] then []
    else if candidate[0].0 == "bullets" then OtherFields(candidate[1..])
    else [candidate[0]] + OtherFields(candidate[1..])
  }

  /** Every entry of other_fields is an entry of the candidate. */
  lemma {:induction false} OtherFieldsFrom(candidate: Dict<string, Value>)
    ensures forall i :: 0 <= i < |OtherFields(candidate)| ==> OtherFields(candidate)[i] in candidate[..]
    decreases |candidate|
  {
    if candidate != [] {
      var rest := OtherFields(candidate[1..]);
      OtherFieldsFrom(candidate[1..]);
      assert forall x :: x in candidate[1..] ==> x in candidate;
      if candidate[0].0 != "bullets" {
        var r := [candidate[0]] + rest;
        forall i | 0 <= i < |r| ensures r[i] in candidate {
          if i > 0 {
            assert r[i] == rest[i - 1];
          }
        }
      }
    }
  }

  /** other_fields answers every lookup as the candidate does, except that it has no "bullets". */
  lemma {:induction false} OtherFieldsGet(candidate: Dict<string, Value>, k: string)
    ensures Get(OtherFields(candidate), k) == if k == "bullets" then None else Get(candidate, k)
    decreases |candidate|
  {
    if candidate != [] {
      OtherFieldsGet(candidate[1..], k);
      if candidate[0].0 != "bullets" {
        var r := [candidate[0]] + OtherFields(candidate[1..]);
        assert r[1..] == OtherFields(candidate[1..]);
      }
    }
  }

  /** Dropping entries keeps the keys distinct. */
  lemma {:induction false} OtherFieldsDistinct(candidate: Dict<string, Value>)
    requires DistinctKeys(candidate)
    ensures DistinctKeys(OtherFields(candidate))
    decreases |candidate|
  {
    if candidate != [] {
      var rest := OtherFields(candidate[1..]);
      OtherFieldsDistinct(candidate[1..]);
      if candidate[0].0 != "bullets" {
        OtherFieldsFrom(candidate[1..]);
        var r := [candidate[0]] + rest;
        forall i, j | 0 <= i < j < |r| ensures r[i].0 != r[j].0 {
          assert r[j] == rest[j - 1];
          if i == 0 {
            var m :| 0 <= m < |candidate[1..]| && candidate[1..][m] == rest[j - 1];
            assert candidate[m + 1] == r[j];
          } else {
            assert r[i] == rest[i - 1];
          }
        }
      }
    }
  }

  /** The entries of other_fields come from the candidate, and only "bullets" is dropped. */
  lemma OtherFieldsSpec(candidate: Dict<string, Value>)
    ensures !HasKey(OtherFields(candidate), "bullets")
    ensures forall k :: k != "bullets" ==> Get(OtherFields(candidate), k) == Get(candidate, k)
    ensures DistinctKeys(candidate) ==> DistinctKeys(OtherFields(candidate))
    ensures forall i :: 0 <= i < |OtherFields(candidate)| ==> OtherFields(candidate)[i] in candidate
  {
    OtherFieldsGet(candidate, "bullets");
    GetSpec(OtherFields(candidate), "bullets");
    forall k | k != "bullets" ensures Get(OtherFields(candidate), k) == Get(candidate, k) {
      OtherFieldsGet(candidate, k);
    }
    if DistinctKeys(candidate) {
      OtherFieldsDistinct(candidate);
    }
    OtherFieldsFrom(candidate);
    assert candidate[..] == candidate;
  }

  // ================================================================ numbered keys

  /** f"{base}_{i}". */
  function Key(base: string, i: nat): (k: string)
    ensures |k| > |base| && k[..|base|] == base && k[|base|] == '_'
  {
    base + "_" + NatToString(i)
  }

  /** Two numbered keys are equal only for the same base and number, as long as neither base holds '_'. */
  lemma KeyInjective(base1: string, i1: nat, base2: string, i2: nat)
    requires '_' !in base1 && '_' !in base2
    requires Key(base1, i1) == Key(base2, i2)
    ensures base1 == base2 && i1 == i2
  {
    var k := Key(base1, i1);
    if |base1| < |base2| {
      assert false;
    } else if |base2| < |base1| {
      assert false;
    }
    assert base1 == k[..|base1|] == base2;
    assert NatToString(i1) == k[|base1| + 1..] == NatToString(i2);
    NatToStringInjective(i1, i2);
  }

  /** Keys with the same base differ when the numbers do. */
  lemma KeySameBase(base: string, i1: nat, i2: nat)
    requires Key(base, i1) == Key(base, i2)
    ensures i1 == i2
  {
    var k := Key(base, i1);
    assert NatToString(i1) == k[|base| + 1..] == NatToString(i2);
    NatToStringInjective(i1, i2);
  }

  /** `for i, v in enumerate(values, start=1): d[f"{base}_{i}"] = v`. */
  function PutNumbered(d: Dict<string, Value>, base: string, values: seq<Value>): Dict<string, Value>
    decreases |values|
  {
    if values == [] then d
    else
      var n := |values|;
      Put(PutNumbered(d, base, values[..n - 1]), Key(base, n), values[n - 1])
  }

  /** The i-th value lands under key i, counting from 1. */
  lemma {:induction false} PutNumberedGet(d: Dict<string, Value>, base: string, values: seq<Value>, i: nat)
    requires 1 <= i <= |values|
    ensures Get(PutNumbered(d, base, values), Key(base, i)) == Some(values[i - 1])
    decreases |values|
  {
    var n := |values|;
    var init := values[..n - 1];
    PutGet(PutNumbered(d, base, init), Key(base, n), values[n - 1], Key(base, i));
    if i < n {
      if Key(base, i) == Key(base, n) {
        KeySameBase(base, i, n);
      }
      PutNumberedGet(d, base, init, i);
    }
  }

  /** A key that is not one of the numbered keys keeps its value. */
  lemma {:induction false} PutNumberedOther(d: Dict<string, Value>, base: string, values: seq<Value>, k: string)
    requires forall i :: 1 <= i <= |values| ==> k != Key(base, i)
    ensures Get(PutNumbered(d, base, values), k) == Get(d, k)
    decreases |values|
  {
    if values != [] {
      var n := |values|;
      assert k != Key(base, n);
      PutGet(PutNumbered(d, base, values[..n - 1]), Key(base, n), values[n - 1], k);
      PutNumberedOther(d, base, values[..n - 1], k);
    }
  }

  /** Numbering keeps keys unique. */
  lemma {:induction false} PutNumberedDistinct(d: Dict<string, Value>, base: string, values: seq<Value>)
    requires DistinctKeys(d)
    ensures DistinctKeys(PutNumbered(d, base, values))
    decreases |values|
  {
    if values != [] {
      var n := |values|;
      PutNumberedDistinct(d, base, values[..n - 1]);
      PutDistinct(PutNumbered(d, base, values[..n - 1]), Key(base, n), values[n - 1]);
    }
  }

  /** Numbering adds no key but the numbered ones. */
  lemma {:induction false} PutNumberedKeys(d: Dict<string, Value>, base: string, values: seq<Value>, k: string)
    ensures HasKey(PutNumbered(d, base, values), k) ==> HasKey(d, k) || exists i :: 1 <= i <= |values| && k == Key(base, i)
    decreases |values|
  {
    if values != [] {
      var n := |values|;
      var prev := PutNumbered(d, base, values[..n - 1]);
      if HasKey(PutNumbered(d, base, values), k) && !HasKey(d, k) {
        if k == Key(base, n) {
          assert 1 <= n <= |values| && k == Key(base, n);
        } else {
          PutKeys(prev, Key(base, n), values[n - 1]);
          assert HasKey(prev, k);
          PutNumberedKeys(d, base, values[..n - 1], k);
          var i :| 1 <= i <= n - 1 && k == Key(base, i);
          assert 1 <= i <= |values| && k == Key(base, i);
        }
      }
    }
  }

  // ================================================================ default selections

  /**
   * `recommend(bullets, jd_text, top_n=n)` for the job text at hand: the
   * ranked (bullet, score) pairs.
   */
  type Ranker = (seq<Bullet>, int) -> seq<(Bullet, int)>

  /** What the generator relies on of the ranking: each pair holds an input bullet, and there are at most top_n for a non-negative top_n. */
  ghost predicate Ranks(rank: Ranker)
  {
    forall bullets, n :: (n >= 0 ==> |rank(bullets, n)| <= n) && forall i :: 0 <= i < |rank(bullets, n)| ==> rank(bullets, n)[i].0 in bullets
  }

  /** The bullet recommender, for any job text and models, is such a ranking. */
  lemma RecommendRanks(jdText: string, models: Recommender.Models)
    ensures Ranks((bullets: seq<Bullet>, n: int) => Recommender.Recommend(bullets, jdText, n, models))
  {
    forall bullets: seq<Bullet>, n: int
      ensures n >= 0 ==> |Recommender.Recommend(bullets, jdText, n, models)| <= n
      ensures forall i :: 0 <= i < |Recommender.Recommend(bullets, jdText, n, models)| ==> Recommender.Recommend(bullets, jdText, n, models)[i].0 in bullets
    {
      Recommender.RecommendSpec(bullets, jdText, n, models);
      Recommender.PipelineSpec(bullets, jdText, n, models);
    }
  }

  /** `[b for b, _ in recommend(bullets, jd_text, top_n=min(count, len(bullets)))]`. */
  function Picked(bullets: seq<Bullet>, count: int, rank: Ranker): seq<Bullet>
  {
    Sorting.MapSeq(rank(bullets, Min(count, |bullets|)), (p: (Bullet, int)) => p.0)
  }

  /** At most min(count, len(bullets)) picks for a non-negative count, each one of the given bullets. */
  lemma PickedSpec(bullets: seq<Bullet>, count: int, rank: Ranker)
    requires Ranks(rank)
    ensures count >= 0 ==> |Picked(bullets, count, rank)| <= Min(count, |bullets|)
    ensures forall i :: 0 <= i < |Picked(bullets, count, rank)| ==> Picked(bullets, count, rank)[i] in bullets
  {
  }

  /** The selections dict after the roles of `counts`: one entry for each role with bullets. */
  function Selections(byRole: Dict<string, seq<Bullet>>, rank: Ranker, counts: Dict<string, int>): Dict<string, seq<Bullet>>
    decreases |counts|
  {
    if counts == [] then []
    else
      var n := |counts|;
      var prev := Selections(byRole, rank, counts[..n - 1]);
      var bullets := GetOr(byRole, counts[n - 1].0, []);
      if bullets == [] then prev else Put(prev, counts[n - 1].0, Picked(bullets, counts[n - 1].1, rank))
  }

  /**
   * A role is selected exactly when it is one of the counted roles and has
   * bullets, and then it holds the picks for its own count.
   */
  lemma {:induction false} SelectionsGet(byRole: Dict<string, seq<Bullet>>, rank: Ranker, counts: Dict<string, int>, role: string)
    requires DistinctKeys(counts)
    ensures Get(Selections(byRole, rank, counts), role) ==
      if Get(counts, role).Some? && GetOr(byRole, role, []) != [] then Some(Picked(GetOr(byRole, role, []), Get(counts, role).value, rank))
      else None
    decreases |counts|
  {
    if counts != [] {
      var n := |counts|;
      var init := counts[..n - 1];
      assert DistinctKeys(init);
      SelectionsGet(byRole, rank, init, role);
      GetSnoc(counts, role);
      LastKeyNew(counts);
      GetSpec(init, counts[n - 1].0);
      var prev := Selections(byRole, rank, init);
      var bullets := GetOr(byRole, counts[n - 1].0, []);
      if bullets != [] {
        PutSpec(prev, counts[n - 1].0, Picked(bullets, counts[n - 1].1, rank));
      }
    }
  }

  /** In a dict with unique keys, the last key is not among the earlier ones. */
  lemma LastKeyNew<K, V>(d: Dict<K, V>)
    requires DistinctKeys(d) && d != []
    ensures !HasKey(d[..|d| - 1], d[|d| - 1].0)
  {
    var init := d[..|d| - 1];
    forall i | 0 <= i < |init| ensures Keys(init)[i] != d[|d| - 1].0 {
      assert init[i] == d[i];
    }
  }

  /** The selected roles are counted roles, each once. */
  lemma {:induction false} SelectionsKeys(byRole: Dict<string, seq<Bullet>>, rank: Ranker, counts: Dict<string, int>)
    ensures DistinctKeys(Selections(byRole, rank, counts))
    ensures forall j :: 0 <= j < |Selections(byRole, rank, counts)| ==> HasKey(counts, Selections(byRole, rank, counts)[j].0)
    decreases |counts|
  {
    if counts != [] {
      var n := |counts|;
      var init := counts[..n - 1];
      SelectionsKeys(byRole, rank, init);
      HasKeySnoc(counts, counts[n - 1].0);
      var prev := Selections(byRole, rank, init);
      var bullets := GetOr(byRole, counts[n - 1].0, []);
      if bullets != [] {
        var v := Picked(bullets, counts[n - 1].1, rank);
        var r := Put(prev, counts[n - 1].0, v);
        PutSpec(prev, counts[n - 1].0, v);
        forall j | 0 <= j < |r| ensures HasKey(counts, r[j].0) {
          assert Keys(r)[j] == r[j].0;
          if r[j].0 != counts[n - 1].0 {
            assert r[j].0 in Keys(prev);
            var j' :| 0 <= j' < |prev| && Keys(prev)[j'] == r[j].0;
            HasKeySnoc(counts, prev[j'].0);
          }
        }
      } else {
        forall j | 0 <= j < |prev| ensures HasKey(counts, prev[j].0) {
          HasKeySnoc(counts, prev[j].0);
        }
      }
    }
  }

  /** Without any bullets nothing is selected. */
  lemma {:induction false} SelectionsEmpty(rank: Ranker, counts: Dict<string, int>)
    ensures Selections([], rank, counts) == []
    decreases |counts|
  {
    if counts != [] {
      SelectionsEmpty(rank, counts[..|counts| - 1]);
    }
  }

  /** The selection loop: `recommend` on each counted role that has bullets. */
  method SelectDefaults(byRole: Dict<string, seq<Bullet>>, rank: Ranker) returns (selections: Dict<string, seq<Bullet>>)
    ensures selections == Selections(byRole, rank, DefaultCounts)
  {
    selections := [];
    if byRole == [] {
      SelectionsEmpty(rank, DefaultCounts);
      return;
    }
    var k := 0;
    while k < |DefaultCounts|
      invariant 0 <= k <= |DefaultCounts|
      invariant selections == Selections(byRole, rank, DefaultCounts[..k])
    {
      var (role, count) := DefaultCounts[k];
      assert DefaultCounts[..k + 1][..k] == DefaultCounts[..k];
      var bullets := GetOr(byRole, role, []);
      if bullets != [] {
        var recs := rank(bullets, Min(count, |bullets|));
        selections := Put(selections, role, Sorting.MapSeq(recs, (p: (Bullet, int)) => p.0));
      }
      k := k + 1;
    }
    assert DefaultCounts[..k] == DefaultCounts;
  }

  /**
   * The default selection: a role of DEFAULT_COUNTS with bullets gets at most
   * min(count, len(bullets)) of its own bullets, and every other role gets
   * no entry.
   */
  lemma DefaultSelectionCaps(byRole: Dict<string, seq<Bullet>>, rank: Ranker, role: string)
    requires Ranks(rank)
    ensures var sel := Get(Selections(byRole, rank, DefaultCounts), role);
      var bullets := GetOr(byRole, role, []);
      && (sel.Some? <==> Get(DefaultCounts, role).Some? && bullets != [])
      && (sel.Some? ==> |sel.value| <= Min(Get(DefaultCounts, role).value, |bullets|))
      && (sel.Some? ==> forall i :: 0 <= i < |sel.value| ==> sel.value[i] in bullets)
  {
    SelectionsGet(byRole, rank, DefaultCounts, role);
    var bullets := GetOr(byRole, role, []);
    if Get(DefaultCounts, role).Some? {
      GetSpec(DefaultCounts, role);
      PickedSpec(bullets, Get(DefaultCounts, role).value, rank);
    }
  }

  // ================================================================ template keys

  /** `role.upper().replace(' ', '').replace('-', '')`. */
  function KeyBase(role: string): (r: string)
    ensures forall i :: 0 <= i < |r| ==> r[i] != ' ' && r[i] != '-'
    ensures |r| <= |role|
  {
    var w := Without(Upper(role), ' ');
    WithoutSub(w, '-');
    assert ' ' !in w;
    Without(w, '-')
  }

  /** `s.replace(c, '')` for a single character c. */
  function Without(s: string, c: char): (r: string)
    ensures |r| <= |s|
    ensures forall i :: 0 <= i < |r| ==> r[i] != c
    decreases |s|
  {
    if s == [] then []
    else if s[0] == c then Without(s[1..], c)
    else [s[0]] + Without(s[1..], c)
  }

  /** Removing a character keeps no character the string lacks. */
  lemma {:induction false} WithoutSub(s: string, c: char)
    ensures forall x :: x in Without(s, c) ==> x in s
    decreases |s|
  {
    if s != [] {
      WithoutSub(s[1..], c);
    }
  }

  /** A role without '_' has a key base without '_'. */
  lemma KeyBaseNoUnderscore(role: string)
    requires '_' !in role
    ensures '_' !in KeyBase(role)
  {
    WithoutSub(Upper(role), ' ');
    WithoutSub(Without(Upper(role), ' '), '-');
  }

  /** A key base starts with the upper-cased first two characters when neither is removed. */
  lemma KeyBaseStart(role: string)
    requires |role| >= 2 && role[0] != ' ' && role[0] != '-' && role[1] != ' ' && role[1] != '-'
    ensures |KeyBase(role)| >= 2 && KeyBase(role)[0] == UpperChar(role[0]) && KeyBase(role)[1] == UpperChar(role[1])
  {
    var u := Upper(role);
    assert Without(u, ' ') == [u[0]] + Without(u[1..], ' ');
    assert Without(u[1..], ' ') == [u[1]] + Without(u[2..], ' ') by {
      assert u[1..][1..] == u[2..];
    }
    var w := Without(u, ' ');
    assert Without(w, '-') == [w[0]] + Without(w[1..], '-');
    assert Without(w[1..], '-') == [w[1]] + Without(w[2..], '-') by {
      assert w[1..][1..] == w[2..];
    }
  }

  /** The default roles differ in their upper-cased first two characters, neither of which is ' ' or '-', and hold no '_'. */
  lemma DefaultRolesStart(r1: string, r2: string)
    requires HasKey(DefaultCounts, r1) && HasKey(DefaultCounts, r2)
    ensures |r1| >= 2 && r1[0] != ' ' && r1[0] != '-' && r1[1] != ' ' && r1[1] != '-' && '_' !in r1
    ensures r1 != r2 ==> UpperChar(r1[0]) != UpperChar(r2[0]) || UpperChar(r1[1]) != UpperChar(r2[1])
  {
    assert Keys(DefaultCounts) == ["Nodelink", "MAMM", "FactCheck", "Medical Classifier"];
  }

  /** The default roles' key bases (NODELINK, MAMM, FACTCHECK, MEDICALCLASSIFIER) differ in their first two characters. */
  lemma DefaultBasesDiffer(r1: string, r2: string)
    requires HasKey(DefaultCounts, r1) && HasKey(DefaultCounts, r2) && r1 != r2
    ensures KeyBase(r1) != KeyBase(r2)
  {
    DefaultRolesStart(r1, r2);
    DefaultRolesStart(r2, r1);
    KeyBaseStart(r1);
    KeyBaseStart(r2);
  }

  /** No default role's key base holds '_'. */
  lemma DefaultBaseNoUnderscore(r: string)
    requires HasKey(DefaultCounts, r)
    ensures '_' !in KeyBase(r)
  {
    DefaultRolesStart(r, r);
    KeyBaseNoUnderscore(r);
  }

  /** The bullet texts of a role's picks, as template values. */
  function BulletValues(items: seq<Bullet>): (r: seq<Value>)
    ensures |r| == |items| && forall i :: 0 <= i < |items| ==> r[i] == Str(Recommender.BulletText(items[i]))
  {
    Sorting.MapSeq(items, (b: Bullet) => Str(Recommender.BulletText(b)))
  }

  /** template_data after the selections: KEYBASE_1, KEYBASE_2, ... for each role's picks. */
  function TemplateData(selections: Dict<string, seq<Bullet>>): Dict<string, Value>
    decreases |selections|
  {
    if selections == [] then []
    else
      var n := |selections|;
      PutNumbered(TemplateData(selections[..n - 1]), KeyBase(selections[n - 1].0), BulletValues(selections[n - 1].1))
  }

  /** The roles' key bases are different and hold no '_', so no two roles share a key. */
  predicate SeparateBases(selections: Dict<string, seq<Bullet>>)
  {
    && (forall j :: 0 <= j < |selections| ==> '_' !in KeyBase(selections[j].0))
    && (forall j, j' :: 0 <= j < j' < |selections| ==> KeyBase(selections[j].0) != KeyBase(selections[j'].0))
  }

  /**
   * With separate key bases, KEYBASE_i holds the text of the role's i-th
   * pick, counting from 1.
   */
  lemma {:induction false} TemplateDataGet(selections: Dict<string, seq<Bullet>>, j: nat, i: nat)
    requires SeparateBases(selections)
    requires j < |selections| && 1 <= i <= |selections[j].1|
    ensures Get(TemplateData(selections), Key(KeyBase(selections[j].0), i)) == Some(Str(Recommender.BulletText(selections[j].1[i - 1])))
    decreases |selections|
  {
    var n := |selections|;
    var init := selections[..n - 1];
    var last := selections[n - 1];
    var k := Key(KeyBase(selections[j].0), i);
    if j == n - 1 {
      PutNumberedGet(TemplateData(init), KeyBase(last.0), BulletValues(last.1), i);
    } else {
      assert SeparateBases(init) by {
        assert forall j1 :: 0 <= j1 < |init| ==> init[j1] == selections[j1];
      }
      assert init[j] == selections[j];
      TemplateDataGet(init, j, i);
      forall i' | 1 <= i' <= |BulletValues(last.1)| ensures k != Key(KeyBase(last.0), i') {
        if k == Key(KeyBase(last.0), i') {
          KeyInjective(KeyBase(selections[j].0), i, KeyBase(last.0), i');
        }
      }
      PutNumberedOther(TemplateData(init), KeyBase(last.0), BulletValues(last.1), k);
    }
  }

  /** Every key of template_data is some role's KEYBASE_i, and keys are unique. */
  lemma {:induction false} TemplateDataKeys(selections: Dict<string, seq<Bullet>>, k: string)
    ensures DistinctKeys(TemplateData(selections))
    ensures HasKey(TemplateData(selections), k) ==>
      exists j, i :: 0 <= j < |selections| && 1 <= i <= |selections[j].1| && k == Key(KeyBase(selections[j].0), i)
    decreases |selections|
  {
    if selections != [] {
      var n := |selections|;
      var init := selections[..n - 1];
      var last := selections[n - 1];
      TemplateDataKeys(init, k);
      PutNumberedKeys(TemplateData(init), KeyBase(last.0), BulletValues(last.1), k);
      PutNumberedDistinct(TemplateData(init), KeyBase(last.0), BulletValues(last.1));
      if HasKey(TemplateData(selections), k) {
        if HasKey(TemplateData(init), k) {
          var j, i :| 0 <= j < |init| && 1 <= i <= |init[j].1| && k == Key(KeyBase(init[j].0), i);
          assert init[j] == selections[j];
        } else {
          var i :| 1 <= i <= |BulletValues(last.1)| && k == Key(KeyBase(last.0), i);
          assert 0 <= n - 1 < |selections| && 1 <= i <= |selections[n - 1].1| && k == Key(KeyBase(selections[n - 1].0), i);
        }
      }
    }
  }

  /** The key-building loops over the selections. */
  method FlattenSelections(selections: Dict<string, seq<Bullet>>) returns (templateData: Dict<string, Value>)
    requires HaveText(selections)
    ensures templateData == TemplateData(selections)
  {
    templateData := [];
    var j := 0;
    while j < |selections|
      invariant 0 <= j <= |selections|
      invariant templateData == TemplateData(selections[..j])
    {
      var (role, items) := selections[j];
      assert selections[..j + 1][..j] == selections[..j];
      var keybase := KeyBase(role);
      ghost var before := templateData;
      ghost var values := BulletValues(items);
      var i := 0;
      while i < |items|
        invariant 0 <= i <= |items|
        invariant templateData == PutNumbered(before, keybase, values[..i])
      {
        assert HasKey(selections[j].1[i].fields, "bullet");
        var item := items[i].fields;
        GetSpec(item, "bullet");
        var text := Get(item, "bullet").value;
        assert values[..i + 1][..i] == values[..i];
        templateData := Put(templateData, Key(keybase, i + 1), Str(text));
        i := i + 1;
      }
      assert values[..i] == values;
      j := j + 1;
    }
    assert selections[..j] == selections;
  }

  // ================================================================ skill keys

  /** The formatted recommendations as template values. */
  function SkillValues(recommended: seq<(string, seq<string>)>): (r: seq<Value>)
    ensures |r| == |recommended| && forall i :: 0 <= i < |r| ==> r[i] == Str(Skills.FormatSkill(recommended[i].0, recommended[i].1))
  {
    Sorting.MapSeq(recommended, (e: (string, seq<string>)) => Str(Skills.FormatSkill(e.0, e.1)))
  }

  /** skill_recommendations: SKILL_1, SKILL_2, ... in recommendation order. */
  function SkillTable(recommended: seq<(string, seq<string>)>): Dict<string, Value>
  {
    PutNumbered([], SkillBase, SkillValues(recommended))
  }

  /** SKILL_i holds the i-th recommendation, formatted, and there are no other keys. */
  lemma SkillTableSpec(recommended: seq<(string, seq<string>)>, k: string)
    ensures DistinctKeys(SkillTable(recommended))
    ensures forall i :: 1 <= i <= |recommended| ==>
      Get(SkillTable(recommended), Key(SkillBase, i)) == Some(Str(Skills.FormatSkill(recommended[i - 1].0, recommended[i - 1].1)))
    ensures HasKey(SkillTable(recommended), k) <==> exists i :: 1 <= i <= |recommended| && k == Key(SkillBase, i)
  {
    PutNumberedKeys([], SkillBase, SkillValues(recommended), k);
    PutNumberedDistinct([], SkillBase, SkillValues(recommended));
    forall i | 1 <= i <= |recommended|
      ensures Get(SkillTable(recommended), Key(SkillBase, i)) == Some(Str(Skills.FormatSkill(recommended[i - 1].0, recommended[i - 1].1)))
    {
      PutNumberedGet([], SkillBase, SkillValues(recommended), i);
    }
    if exists i :: 1 <= i <= |recommended| && k == Key(SkillBase, i) {
      var i :| 1 <= i <= |recommended| && k == Key(SkillBase, i);
      PutNumberedGet([], SkillBase, SkillValues(recommended), i);
      GetSpec(SkillTable(recommended), k);
    }
  }

  /** What the skill recommender returns for the skills sheet: nothing for an empty sheet. */
  function SkillsFor(skillsData: Skills.Taxonomy, jdText: string): seq<(string, seq<string>)>
  {
    if skillsData == [] then [] else Skills.RecommendFor(skillsData, Skills.IndexOf(skillsData), jdText, SkillCategories)
  }

  /** The skill-recommendation step: recommend four categories, then number them. */
  method SkillRecommendations(skillsData: Skills.Taxonomy, jdText: string) returns (recs: Dict<string, Value>)
    requires DistinctKeys(skillsData)
    ensures recs == SkillTable(SkillsFor(skillsData, jdText))
  {
    recs := [];
    if skillsData != [] {
      var recommender := new Skills.SkillRecommender(skillsData);
      var recommended := recommender.RecommendSkills(jdText, SkillCategories);
      recs := NumberSkills(recommended);
    }
  }

  /** `for i, (category, skills) in enumerate(recommended, start=1)`: SKILL_i is the i-th entry, formatted. */
  method NumberSkills(recommended: seq<(string, seq<string>)>) returns (recs: Dict<string, Value>)
    ensures recs == SkillTable(recommended)
  {
    recs := [];
    ghost var values := SkillValues(recommended);
    var i := 0;
    while i < |recommended|
      invariant 0 <= i <= |recommended|
      invariant recs == PutNumbered([], SkillBase, values[..i])
    {
      var (category, skills) := recommended[i];
      assert values[..i + 1][..i] == values[..i];
      recs := Put(recs, Key(SkillBase, i + 1), Str(Skills.FormatSkill(category, skills)));
      i := i + 1;
    }
    assert values[..i] == values;
  }

  // ================================================================ the merge

  /** parse_job_description's result as the dict generate_resume merges. */
  function JdData(p: JobParser.Parsed): Dict<string, Value>
  {
    [("skills", List(p.skills)), ("responsibilities", List(p.responsibilities)), ("keywords", List(p.keywords))]
  }

  lemma JdDataDistinct(p: JobParser.Parsed)
    ensures DistinctKeys(JdData(p))
  {
    var d := JdData(p);
    assert d[0].0 == "skills" && d[1].0 == "responsibilities" && d[2].0 == "keywords";
  }

  /** What parse_job_description promises of its result. */
  ghost predicate ParsedFrom(p: JobParser.Parsed, text: string)
  {
    && p.skills == JobParser.Bucketed(JobParser.ContentLines(text), JobParser.SkillLine)
    && p.responsibilities == JobParser.Bucketed(JobParser.ContentLines(text), JobParser.ResponsibilityLine)
    && StringOrder.Sorted(p.keywords)
    && forall k :: k in p.keywords <==> k in JobParser.KeywordSet(JobParser.ContentLines(text))
  }

  /** `{**jd, **other_fields, **template_data, **skill_recommendations}`. */
  function Merge(jd: Dict<string, Value>, other: Dict<string, Value>, template: Dict<string, Value>, skills: Dict<string, Value>): Dict<string, Value>
  {
    Update(Update(Update(jd, other), template), skills)
  }

  /** In the merge a key takes its value from the last of the four dicts that has it. */
  lemma MergeSpec(jd: Dict<string, Value>, other: Dict<string, Value>, template: Dict<string, Value>, skills: Dict<string, Value>, k: string)
    requires DistinctKeys(other) && DistinctKeys(template) && DistinctKeys(skills)
    ensures Get(Merge(jd, other, template, skills), k) ==
      if HasKey(skills, k) then Get(skills, k)
      else if HasKey(template, k) then Get(template, k)
      else if HasKey(other, k) then Get(other, k)
      else Get(jd, k)
    ensures DistinctKeys(jd) ==> DistinctKeys(Merge(jd, other, template, skills))
  {
    var a := Update(jd, other);
    var b := Update(a, template);
    UpdateSpec(jd, other, k);
    UpdateSpec(a, template, k);
    UpdateSpec(b, skills, k);
    if DistinctKeys(jd) {
      UpdateDistinct(jd, other);
      UpdateDistinct(a, template);
      UpdateDistinct(b, skills);
    }
  }

  /** Every picked bullet is one of the role's bullets, so it has the field the key loop reads. */
  lemma SelectionsHaveText(byRole: Dict<string, seq<Bullet>>, rank: Ranker)
    requires Ranks(rank) && DistinctKeys(byRole) && HaveText(byRole)
    ensures HaveText(Selections(byRole, rank, DefaultCounts))
  {
    var sel := Selections(byRole, rank, DefaultCounts);
    forall j, i | 0 <= j < |sel| && 0 <= i < |sel[j].1| ensures HasKey(sel[j].1[i].fields, "bullet") {
      var role := sel[j].0;
      SelectionsKeys(byRole, rank, DefaultCounts);
      GetAt(sel, j);
      DefaultSelectionCaps(byRole, rank, role);
      var bullets := GetOr(byRole, role, []);
      assert sel[j].1[i] in bullets;
      GetSpec(byRole, role);
      var r :| 0 <= r < |byRole| && byRole[r] == (role, bullets);
      var t :| 0 <= t < |bullets| && bullets[t] == sel[j].1[i];
      assert byRole[r].1[t] == sel[j].1[i];
    }
  }

  /** The roles of the default selection have separate key bases. */
  lemma DefaultBasesSeparate(byRole: Dict<string, seq<Bullet>>, rank: Ranker)
    ensures SeparateBases(Selections(byRole, rank, DefaultCounts))
  {
    var sel := Selections(byRole, rank, DefaultCounts);
    SelectionsKeys(byRole, rank, DefaultCounts);
    forall j | 0 <= j < |sel| ensures '_' !in KeyBase(sel[j].0) {
      DefaultBaseNoUnderscore(sel[j].0);
    }
    forall j, j' | 0 <= j < j' < |sel| ensures KeyBase(sel[j].0) != KeyBase(sel[j'].0) {
      DefaultBasesDiffer(sel[j].0, sel[j'].0);
    }
  }

  /**
   * generate_resume up to the rendering: the dict passed to render_template
   * merges the parsed job description, the candidate's other fields, the
   * bullet keys of the default selection and the numbered skill keys.
   */
  method GenerateResume(jdText: string, candidate: Dict<string, Value>, skillsData: Skills.Taxonomy, rank: Ranker)
    returns (data: Dict<string, Value>)
    requires Ranks(rank) && CandidateOk(candidate) && HaveText(BulletsByRole(candidate)) && DistinctKeys(skillsData)
    ensures DistinctKeys(data)
    ensures exists p :: ParsedFrom(p, jdText) && data == Merge(JdData(p), OtherFields(candidate),
      TemplateData(Selections(BulletsByRole(candidate), rank, DefaultCounts)),
      SkillTable(SkillsFor(skillsData, jdText)))
  {
    var jd := JobParser.ParseJobDescription(jdText);
    var bulletsByRole := BulletsByRole(candidate);
    var selections := SelectDefaults(bulletsByRole, rank);
    var skillRecommendations := SkillRecommendations(skillsData, jdText);
    SelectionsHaveText(bulletsByRole, rank);
    var templateData := FlattenSelections(selections);
    var otherFields := OtherFields(candidate);
    OtherFieldsSpec(candidate);
    TemplateDataKeys(selections, "");
    SkillTableSpec(SkillsFor(skillsData, jdText), "");
    JdDataDistinct(jd);
    data := Merge(JdData(jd), otherFields, templateData, skillRecommendations);
    MergeSpec(JdData(jd), otherFields, templateData, skillRecommendations, "");
    assert ParsedFrom(jd, jdText);
  }

  /**
   * The merged data, key by key: SKILL_i is the i-th formatted skill
   * recommendation; a default role's KEYBASE_i is its i-th pick unless a
   * skill key has the same name; a candidate field other than "bullets"
   * keeps its value unless it is one of these keys.
   */
  lemma MergedKeys(jd: Dict<string, Value>, candidate: Dict<string, Value>, byRole: Dict<string, seq<Bullet>>, recommended: seq<(string, seq<string>)>,
                   rank: Ranker, k: string)
    requires DistinctKeys(candidate)
    ensures var sel := Selections(byRole, rank, DefaultCounts);
      var data := Merge(jd, OtherFields(candidate), TemplateData(sel), SkillTable(recommended));
      && (forall i :: 1 <= i <= |recommended| ==>
            Get(data, Key(SkillBase, i)) == Some(Str(Skills.FormatSkill(recommended[i - 1].0, recommended[i - 1].1))))
      && (forall j, i :: 0 <= j < |sel| && 1 <= i <= |sel[j].1| && !HasKey(SkillTable(recommended), Key(KeyBase(sel[j].0), i)) ==>
            Get(data, Key(KeyBase(sel[j].0), i)) == Some(Str(Recommender.BulletText(sel[j].1[i - 1]))))
      && (k != "bullets" && Get(candidate, k).Some? && !HasKey(TemplateData(sel), k) && !HasKey(SkillTable(recommended), k) ==>
            Get(data, k) == Get(candidate, k))
  {
    var sel := Selections(byRole, rank, DefaultCounts);
    OtherFieldsSpec(candidate);
    TemplateDataKeys(sel, k);
    SkillTableSpec(recommended, k);
    DefaultBasesSeparate(byRole, rank);
    var data := Merge(jd, OtherFields(candidate), TemplateData(sel), SkillTable(recommended));
    forall i | 1 <= i <= |recommended|
      ensures Get(data, Key(SkillBase, i)) == Some(Str(Skills.FormatSkill(recommended[i - 1].0, recommended[i - 1].1)))
    {
      SkillTableSpec(recommended, Key(SkillBase, i));
      MergeSpec(jd, OtherFields(candidate), TemplateData(sel), SkillTable(recommended), Key(SkillBase, i));
    }
    forall j, i | 0 <= j < |sel| && 1 <= i <= |sel[j].1| && !HasKey(SkillTable(recommended), Key(KeyBase(sel[j].0), i))
      ensures Get(data, Key(KeyBase(sel[j].0), i)) == Some(Str(Recommender.BulletText(sel[j].1[i - 1])))
    {
      TemplateDataGet(sel, j, i);
      GetSpec(TemplateData(sel), Key(KeyBase(sel[j].0), i));
      MergeSpec(jd, OtherFields(candidate), TemplateData(sel), SkillTable(recommended), Key(KeyBase(sel[j].0), i));
    }
    MergeSpec(jd, OtherFields(candidate), TemplateData(sel), SkillTable(recommended), k);
    if k != "bullets" && Get(candidate, k).Some? {
      GetSpec(OtherFields(candidate), k);
    }
  }

  // ================================================================ recommend_for_roles

  /** The results dict after the roles of `byRole`: each role's picks for top_k. */
  function RoleResults(byRole: Dict<string, seq<Bullet>>, topK: int, rank: Ranker): Dict<string, seq<Bullet>>
    decreases |byRole|
  {
    if byRole == [] then []
    else
      var n := |byRole|;
      Put(RoleResults(byRole[..n - 1], topK, rank), byRole[n - 1].0, Picked(byRole[n - 1].1, topK, rank))
  }

  /** Every role of the sheet gets an entry, in sheet order, holding its picks for top_k. */
  lemma {:induction false} RoleResultsSpec(byRole: Dict<string, seq<Bullet>>, topK: int, rank: Ranker)
    requires DistinctKeys(byRole)
    ensures |RoleResults(byRole, topK, rank)| == |byRole|
    ensures forall j :: 0 <= j < |byRole| ==> RoleResults(byRole, topK, rank)[j] == (byRole[j].0, Picked(byRole[j].1, topK, rank))
    decreases |byRole|
  {
    if byRole != [] {
      var n := |byRole|;
      var init := byRole[..n - 1];
      assert DistinctKeys(init);
      RoleResultsSpec(init, topK, rank);
      var prev := RoleResults(init, topK, rank);
      LastKeyNew(byRole);
      assert Keys(prev) == Keys(init);
      PutAppend(prev, byRole[n - 1].0, Picked(byRole[n - 1].1, topK, rank));
    }
  }

  /** For a non-negative top_k, every role's entry holds at most top_k of its own bullets. */
  lemma RoleResultsBound(byRole: Dict<string, seq<Bullet>>, topK: int, rank: Ranker)
    requires DistinctKeys(byRole) && Ranks(rank)
    ensures |RoleResults(byRole, topK, rank)| == |byRole|
    ensures forall j :: 0 <= j < |byRole| ==>
      var picks := RoleResults(byRole, topK, rank)[j].1;
      (topK >= 0 ==> |picks| <= topK) && forall i :: 0 <= i < |picks| ==> picks[i] in byRole[j].1
  {
    RoleResultsSpec(byRole, topK, rank);
    forall j | 0 <= j < |byRole| {
      PickedSpec(byRole[j].1, topK, rank);
    }
  }

  /** Assigning a key the dict lacks appends the pair. */
  lemma {:induction false} PutAppend(d: Dict<string, seq<Bullet>>, k: string, v: seq<Bullet>)
    requires !HasKey(d, k)
    ensures Put(d, k, v) == d + [(k, v)]
    decreases |d|
  {
    if d != [] {
      KeysCons(d);
      PutAppend(d[1..], k, v);
      assert d == [d[0]] + d[1..];
    }
  }

  /** recommend_for_roles after loading the sheet: the picks for every role. */
  method RecommendForRoles(candidate: Dict<string, Value>, topK: int, rank: Ranker)
    returns (results: Dict<string, seq<Bullet>>)
    requires CandidateOk(candidate)
    ensures results == RoleResults(BulletsByRole(candidate), topK, rank)
  {
    var bulletsByRole := BulletsByRole(candidate);
    results := [];
    var j := 0;
    while j < |bulletsByRole|
      invariant 0 <= j <= |bulletsByRole|
      invariant results == RoleResults(bulletsByRole[..j], topK, rank)
    {
      var (role, bullets) := bulletsByRole[j];
      assert bulletsByRole[..j + 1][..j] == bulletsByRole[..j];
      var recs := rank(bullets, Min(topK, |bullets|));
      results := Put(results, role, Sorting.MapSeq(recs, (p: (Bullet, int)) => p.0));
      j := j + 1;
    }
    assert bulletsByRole[..j] == bulletsByRole;
  }

  /** A candidate without a "bullets" entry gets {}. */
  lemma NoBulletsNoResults(candidate: Dict<string, Value>, topK: int, rank: Ranker)
    requires !HasKey(candidate, "bullets")
    ensures RoleResults(BulletsByRole(candidate), topK, rank) == []
  {
    GetSpec(candidate, "bullets");
  }
}
