/**
 * The review screen's template data collector: the template data built from
 * the drag-reordered bullets and skills, with a running SKILL_n counter, and
 * the selection statistics.
 */
module TemplateCollector {
  import opened Wrappers
  import opened Assoc
  import opened Records
  import opened TemplateKeys
  import opened Reorder
  import BulletsSection
  import SkillsSection
  import Application

  // ---------------------------------------------------------------- bullets in list order

  /** `for i, bullet in enumerate(bullets, start=1): data[P{i}] = bullet['bullet']`. */
  function ListBullets(d: Dict<string, string>, p: string, bullets: seq<Rec>): Dict<string, string>
    decreases |bullets|
  {
    if bullets == [] then d
    else Put(ListBullets(d, p, bullets[..|bullets| - 1]), BulletKey(p, |bullets|), bullets[|bullets| - 1].bullet)
  }

  lemma ListBulletsAt(d: Dict<string, string>, p: string, bullets: seq<Rec>, i: nat)
    requires i < |bullets|
    ensures ListBullets(d, p, bullets[..i + 1]) == Put(ListBullets(d, p, bullets[..i]), BulletKey(p, i + 1), bullets[i].bullet)
  {
    var r := bullets[..i + 1];
    assert r[..|r| - 1] == bullets[..i];
  }

  lemma {:induction false} ListBulletsOther(d: Dict<string, string>, p: string, bullets: seq<Rec>, key: string)
    requires forall i :: key != BulletKey(p, i)
    ensures Get(ListBullets(d, p, bullets), key) == Get(d, key)
    decreases |bullets|
  {
    if bullets != [] {
      ListBulletsOther(d, p, bullets[..|bullets| - 1], key);
      PutGet(ListBullets(d, p, bullets[..|bullets| - 1]), BulletKey(p, |bullets|), bullets[|bullets| - 1].bullet, key);
    }
  }

  /** P_i holds the i-th bullet's text. */
  lemma {:induction false} ListBulletsGet(d: Dict<string, string>, p: string, bullets: seq<Rec>, i: nat)
    requires 1 <= i <= |bullets|
    ensures Get(ListBullets(d, p, bullets), BulletKey(p, i)) == Some(bullets[i - 1].bullet)
    decreases |bullets|
  {
    var n := |bullets|;
    var init := bullets[..n - 1];
    PutGet(ListBullets(d, p, init), BulletKey(p, n), bullets[n - 1].bullet, BulletKey(p, i));
    if i < n {
      if BulletKey(p, i) == BulletKey(p, n) { BulletKeyInjective(p, i, n); }
      ListBulletsGet(d, p, init, i);
    }
  }

  lemma {:induction false} ListBulletsKeeps(d: Dict<string, string>, p: string, bullets: seq<Rec>, key: string)
    requires HasKey(d, key)
    ensures HasKey(ListBullets(d, p, bullets), key)
    decreases |bullets|
  {
    if bullets != [] {
      ListBulletsKeeps(d, p, bullets[..|bullets| - 1], key);
      PutKeys(ListBullets(d, p, bullets[..|bullets| - 1]), BulletKey(p, |bullets|), bullets[|bullets| - 1].bullet);
    }
  }

  /** The entries one role contributes: its title, its bullets in their current order, then "" up to P5. */
  function OrderedRole(d: Dict<string, string>, role: string, titles: Dict<string, string>, bullets: seq<Rec>): Dict<string, string>
  {
    var p := Prefix(role);
    ClearFrom(ListBullets(Put(d, TitleKey(p), Title(role, titles)), p, bullets), p, |bullets| + 1)
  }

  /** A role's title, its bullets as P1..Pn in list order, and "" in P(n+1)..P5. */
  lemma OrderedRoleSpec(d: Dict<string, string>, role: string, titles: Dict<string, string>, bullets: seq<Rec>)
    ensures var r := OrderedRole(d, role, titles, bullets);
      var p := Prefix(role);
      && Get(r, TitleKey(p)) == Some(Title(role, titles))
      && (forall i :: 1 <= i <= |bullets| ==> Get(r, BulletKey(p, i)) == Some(bullets[i - 1].bullet))
      && (forall i :: |bullets| < i <= MaxBullets ==> Get(r, BulletKey(p, i)) == Some(""))
  {
    var p := Prefix(role);
    var d1 := Put(d, TitleKey(p), Title(role, titles));
    var d2 := ListBullets(d1, p, bullets);
    PutGet(d, TitleKey(p), Title(role, titles), TitleKey(p));
    forall i ensures TitleKey(p) != BulletKey(p, i) { TitleNotBullet(p, p, i); }
    ListBulletsOther(d1, p, bullets, TitleKey(p));
    ClearFromOther(d2, p, |bullets| + 1, TitleKey(p));
    forall i | 1 <= i <= |bullets| ensures Get(OrderedRole(d, role, titles, bullets), BulletKey(p, i)) == Some(bullets[i - 1].bullet) {
      ListBulletsGet(d1, p, bullets, i);
      forall j | |bullets| + 1 <= j <= MaxBullets ensures BulletKey(p, i) != BulletKey(p, j) {
        if BulletKey(p, i) == BulletKey(p, j) { BulletKeyInjective(p, i, j); }
      }
      ClearFromOther(d2, p, |bullets| + 1, BulletKey(p, i));
    }
    forall i | |bullets| < i <= MaxBullets ensures Get(OrderedRole(d, role, titles, bullets), BulletKey(p, i)) == Some("") {
      ClearFromGet(d2, p, |bullets| + 1, i);
    }
  }

  lemma OrderedRoleOther(d: Dict<string, string>, role: string, titles: Dict<string, string>, bullets: seq<Rec>, key: string)
    requires Foreign(Prefix(role), key)
    ensures Get(OrderedRole(d, role, titles, bullets), key) == Get(d, key)
  {
    var p := Prefix(role);
    var d1 := Put(d, TitleKey(p), Title(role, titles));
    PutGet(d, TitleKey(p), Title(role, titles), key);
    ListBulletsOther(d1, p, bullets, key);
    ClearFromOther(ListBullets(d1, p, bullets), p, |bullets| + 1, key);
  }

  lemma OrderedRoleKeeps(d: Dict<string, string>, role: string, titles: Dict<string, string>, bullets: seq<Rec>, key: string)
    requires HasKey(d, key) || key == TitleKey(Prefix(role))
    ensures HasKey(OrderedRole(d, role, titles, bullets), key)
  {
    var p := Prefix(role);
    var d1 := Put(d, TitleKey(p), Title(role, titles));
    PutKeys(d, TitleKey(p), Title(role, titles));
    ListBulletsKeeps(d1, p, bullets, key);
    ClearFromKeeps(ListBullets(d1, p, bullets), p, |bullets| + 1, key);
  }

  /** The role loop over ordered_bullets. */
  function OrderedRoles(ordered: Dict<string, seq<Rec>>, titles: Dict<string, string>): Dict<string, string>
    decreases |ordered|
  {
    if ordered == [] then []
    else
      var last := ordered[|ordered| - 1];
      OrderedRole(OrderedRoles(ordered[..|ordered| - 1], titles), last.0, titles, last.1)
  }

  lemma OrderedRolesAt(ordered: Dict<string, seq<Rec>>, titles: Dict<string, string>, i: nat)
    requires i < |ordered|
    ensures OrderedRoles(ordered[..i + 1], titles) == OrderedRole(OrderedRoles(ordered[..i], titles), ordered[i].0, titles, ordered[i].1)
  {
    var r := ordered[..i + 1];
    assert r[..|r| - 1] == ordered[..i];
  }

  /** Every role's title key is present after the role loop. */
  lemma {:induction false} OrderedRolesTitles(ordered: Dict<string, seq<Rec>>, titles: Dict<string, string>, k: nat)
    requires k < |ordered|
    ensures HasKey(OrderedRoles(ordered, titles), TitleKey(Prefix(ordered[k].0)))
    decreases |ordered|
  {
    var n := |ordered| - 1;
    var init := ordered[..n];
    if k < n {
      assert init[k] == ordered[k];
      OrderedRolesTitles(init, titles, k);
    }
    OrderedRoleKeeps(OrderedRoles(init, titles), ordered[n].0, titles, ordered[n].1, TitleKey(Prefix(ordered[k].0)));
  }

  /** The role loop writes no skill key. */
  lemma {:induction false} OrderedRolesNoSkill(ordered: Dict<string, seq<Rec>>, titles: Dict<string, string>, j: nat)
    ensures Get(OrderedRoles(ordered, titles), SkillKey(j)) == None
    decreases |ordered|
  {
    if ordered != [] {
      var last := ordered[|ordered| - 1];
      OrderedRolesNoSkill(ordered[..|ordered| - 1], titles, j);
      ForeignKeys(Prefix(last.0), Prefix(last.0));
      OrderedRoleOther(OrderedRoles(ordered[..|ordered| - 1], titles), last.0, titles, last.1, SkillKey(j));
    }
  }

  /** Later roles with other prefixes leave the k-th role's keys as it set them. */
  lemma {:induction false} OrderedRolesLater(ordered: Dict<string, seq<Rec>>, titles: Dict<string, string>, k: nat, n: nat, key: string)
    requires k < n <= |ordered|
    requires forall m :: k < m < n ==> Foreign(Prefix(ordered[m].0), key)
    ensures Get(OrderedRoles(ordered[..n], titles), key) == Get(OrderedRoles(ordered[..k + 1], titles), key)
    decreases n
  {
    if n > k + 1 {
      OrderedRolesStep(ordered, titles, n, key);
      OrderedRolesLater(ordered, titles, k, n - 1, key);
    }
  }

  /** One more role with another prefix leaves the key's value as it was. */
  lemma OrderedRolesStep(ordered: Dict<string, seq<Rec>>, titles: Dict<string, string>, n: nat, key: string)
    requires 1 <= n <= |ordered| && Foreign(Prefix(ordered[n - 1].0), key)
    ensures Get(OrderedRoles(ordered[..n], titles), key) == Get(OrderedRoles(ordered[..n - 1], titles), key)
  {
    OrderedRolesAt(ordered, titles, n - 1);
    OrderedRoleOther(OrderedRoles(ordered[..n - 1], titles), ordered[n - 1].0, titles, ordered[n - 1].1, key);
  }

  // ---------------------------------------------------------------- skills with the running counter

  /**
   * `for skill in ordered_skills: data[skill.key] = skill.value; if n <= 4:
   * data[SKILL_n] = skill.value; n += 1`. The counter before the m-th skill
   * is min(m - 1, 4) + 1, so the m-th skill takes slot m while m <= 4.
   */
  function PutSkills(d: Dict<string, string>, skills: seq<OrderedSkill>): Dict<string, string>
    decreases |skills|
  {
    if skills == [] then d
    else
      var n := |skills|;
      var s := skills[n - 1];
      var r := Put(PutSkills(d, skills[..n - 1]), s.key, s.value);
      if n <= SkillSlots then Put(r, SkillKey(n), s.value) else r
  }

  lemma PutSkillsAt(d: Dict<string, string>, skills: seq<OrderedSkill>, i: nat)
    requires i < |skills|
    ensures PutSkills(d, skills[..i + 1]) ==
      var r := Put(PutSkills(d, skills[..i]), skills[i].key, skills[i].value);
      if i + 1 <= SkillSlots then Put(r, SkillKey(i + 1), skills[i].value) else r
  {
    var r := skills[..i + 1];
    assert r[..|r| - 1] == skills[..i];
  }

  /** The counter after the skill loop. */
  function NextSlot(count: nat): nat
  {
    (if count < SkillSlots then count else SkillSlots) + 1
  }

  /** `for i in range(skill_number, 5): data[SKILL_i] = ""`. */
  function ClearSkills(d: Dict<string, string>, k: nat): Dict<string, string>
    decreases SkillSlots + 1 - k
  {
    if k > SkillSlots then d else ClearSkills(Put(d, SkillKey(k), ""), k + 1)
  }

  lemma {:induction false} ClearSkillsOther(d: Dict<string, string>, k: nat, key: string)
    requires forall j :: k <= j <= SkillSlots ==> key != SkillKey(j)
    ensures Get(ClearSkills(d, k), key) == Get(d, key)
    decreases SkillSlots + 1 - k
  {
    if k <= SkillSlots {
      PutGet(d, SkillKey(k), "", key);
      ClearSkillsOther(Put(d, SkillKey(k), ""), k + 1, key);
    }
  }

  lemma {:induction false} ClearSkillsGet(d: Dict<string, string>, k: nat, j: nat)
    requires k <= j <= SkillSlots
    ensures Get(ClearSkills(d, k), SkillKey(j)) == Some("")
    decreases SkillSlots + 1 - k
  {
    var d' := Put(d, SkillKey(k), "");
    if j == k {
      forall j' | k + 1 <= j' <= SkillSlots ensures SkillKey(j) != SkillKey(j') {
        if SkillKey(j) == SkillKey(j') { SkillKeyInjective(j, j'); }
      }
      ClearSkillsOther(d', k + 1, SkillKey(j));
      PutGet(d, SkillKey(k), "", SkillKey(j));
    } else {
      ClearSkillsGet(d', k + 1, j);
    }
  }

  lemma {:induction false} ClearSkillsKeeps(d: Dict<string, string>, k: nat, key: string)
    requires HasKey(d, key)
    ensures HasKey(ClearSkills(d, k), key)
    decreases SkillSlots + 1 - k
  {
    if k <= SkillSlots {
      PutHasKey(d, SkillKey(k), "", key);
      ClearSkillsKeeps(Put(d, SkillKey(k), ""), k + 1, key);
    }
  }

  lemma {:induction false} PutSkillsKeeps(d: Dict<string, string>, skills: seq<OrderedSkill>, key: string)
    requires HasKey(d, key)
    ensures HasKey(PutSkills(d, skills), key)
    decreases |skills|
  {
    if skills != [] {
      var n := |skills|;
      var s := skills[n - 1];
      var prev := PutSkills(d, skills[..n - 1]);
      PutSkillsKeeps(d, skills[..n - 1], key);
      PutHasKey(prev, s.key, s.value, key);
      PutHasKey(Put(prev, s.key, s.value), SkillKey(n), s.value, key);
    }
  }

  /** Slot n keeps the n-th skill's value unless a later skill is stored under the key SKILL_n. */
  lemma {:induction false} PutSkillsSlot(d: Dict<string, string>, skills: seq<OrderedSkill>, n: nat)
    requires 1 <= n <= |skills| && n <= SkillSlots
    requires forall m :: n <= m < |skills| ==> skills[m].key != SkillKey(n)
    ensures Get(PutSkills(d, skills), SkillKey(n)) == Some(skills[n - 1].value)
    decreases |skills|
  {
    var L := |skills|;
    var s := skills[L - 1];
    var prev := PutSkills(d, skills[..L - 1]);
    PutGet(prev, s.key, s.value, SkillKey(n));
    if L <= SkillSlots {
      PutGet(Put(prev, s.key, s.value), SkillKey(L), s.value, SkillKey(n));
    }
    if n < L {
      if SkillKey(n) == SkillKey(L) { SkillKeyInjective(n, L); }
      PutSkillsSlot(d, skills[..L - 1], n);
    }
  }

  // ---------------------------------------------------------------- the collected data

  /** collect_final_template_data. */
  function CollectorData(ordered: Dict<string, seq<Rec>>, titles: Dict<string, string>, skills: seq<OrderedSkill>): Dict<string, string>
  {
    ClearSkills(PutSkills(OrderedRoles(ordered, titles), skills), NextSlot(|skills|))
  }

  /**
   * SKILL_1..SKILL_4 are always present; SKILL_j is "" past the number of
   * ordered skills; and for n up to 4 the n-th ordered skill's value is in
   * SKILL_n unless a later skill is stored under that very key.
   */
  lemma CollectorSkillsSpec(ordered: Dict<string, seq<Rec>>, titles: Dict<string, string>, skills: seq<OrderedSkill>)
    ensures var data := CollectorData(ordered, titles, skills);
      && (forall j :: 1 <= j <= SkillSlots ==> HasKey(data, SkillKey(j)))
      && (forall j :: |skills| < j <= SkillSlots ==> Get(data, SkillKey(j)) == Some(""))
      && (forall n :: 1 <= n <= |skills| && n <= SkillSlots && (forall m :: n <= m < |skills| ==> skills[m].key != SkillKey(n)) ==>
            Get(data, SkillKey(n)) == Some(skills[n - 1].value))
  {
    var put := PutSkills(OrderedRoles(ordered, titles), skills);
    var data := CollectorData(ordered, titles, skills);
    var k := NextSlot(|skills|);
    forall j | |skills| < j <= SkillSlots ensures Get(data, SkillKey(j)) == Some("") {
      ClearSkillsGet(put, k, j);
    }
    forall n | 1 <= n <= |skills| && n <= SkillSlots && (forall m :: n <= m < |skills| ==> skills[m].key != SkillKey(n))
      ensures Get(data, SkillKey(n)) == Some(skills[n - 1].value)
    {
      PutSkillsSlot(OrderedRoles(ordered, titles), skills, n);
      forall j | k <= j <= SkillSlots ensures SkillKey(n) != SkillKey(j) {
        if SkillKey(n) == SkillKey(j) { SkillKeyInjective(n, j); }
      }
      ClearSkillsOther(put, k, SkillKey(n));
    }
    forall j | 1 <= j <= SkillSlots ensures HasKey(data, SkillKey(j)) {
      if j <= |skills| {
        PutSkillsSlot(OrderedRoles(ordered, titles), skills[..j], j);
        PutSkillsKeepsSlot(OrderedRoles(ordered, titles), skills, j);
        ClearSkillsKeeps(put, k, SkillKey(j));
      } else {
        ClearSkillsGet(put, k, j);
        GetSpec(data, SkillKey(j));
      }
    }
  }

  /** Once the j-th skill has written slot j, the later skills keep the key present. */
  lemma PutSkillsKeepsSlot(d: Dict<string, string>, skills: seq<OrderedSkill>, j: nat)
    requires 1 <= j <= |skills| && j <= SkillSlots
    ensures HasKey(PutSkills(d, skills), SkillKey(j))
  {
    PutSkillsSlot(d, skills[..j], j);
    GetSpec(PutSkills(d, skills[..j]), SkillKey(j));
    PutSkillsSuffixKeeps(d, skills, j, SkillKey(j));
  }

  /** Keys present after the first i skills are still present after all of them. */
  lemma {:induction false} PutSkillsSuffixKeeps(d: Dict<string, string>, skills: seq<OrderedSkill>, i: nat, key: string)
    requires i <= |skills| && HasKey(PutSkills(d, skills[..i]), key)
    ensures HasKey(PutSkills(d, skills), key)
    decreases |skills| - i
  {
    if i == |skills| {
      assert skills[..i] == skills;
    } else {
      PutSkillsAt(d, skills, i);
      var prev := PutSkills(d, skills[..i]);
      PutHasKey(prev, skills[i].key, skills[i].value, key);
      PutHasKey(Put(prev, skills[i].key, skills[i].value), SkillKey(i + 1), skills[i].value, key);
      PutSkillsSuffixKeeps(d, skills, i + 1, key);
    }
  }

  /**
   * With distinct prefixes and no skill stored under one of its keys, a role
   * of ordered_bullets reaches the data with its title, its bullets as
   * P1..Pn in list order and "" in P(n+1)..P5.
   */
  lemma CollectorRole(ordered: Dict<string, seq<Rec>>, titles: Dict<string, string>, skills: seq<OrderedSkill>, k: nat, key: string)
    requires DistinctPrefixes(Keys(ordered)) && k < |ordered|
    requires forall j :: 0 <= j < |skills| ==> Foreign(Prefix(ordered[k].0), skills[j].key)
    requires key == TitleKey(Prefix(ordered[k].0)) || exists i :: key == BulletKey(Prefix(ordered[k].0), i)
    ensures Get(CollectorData(ordered, titles, skills), key) ==
      Get(OrderedRole(OrderedRoles(ordered[..k], titles), ordered[k].0, titles, ordered[k].1), key)
  {
    var p := Prefix(ordered[k].0);
    forall m | k < m < |ordered| ensures Foreign(Prefix(ordered[m].0), key) {
      assert Keys(ordered)[k] == ordered[k].0 && Keys(ordered)[m] == ordered[m].0;
      ForeignKeys(p, Prefix(ordered[m].0));
    }
    OrderedRolesLater(ordered, titles, k, |ordered|, key);
    assert ordered[..|ordered|] == ordered;
    OrderedRolesAt(ordered, titles, k);
    ForeignKeys(p, p);
    PutSkillsOther(OrderedRoles(ordered, titles), skills, key);
    ClearSkillsOther(PutSkills(OrderedRoles(ordered, titles), skills), NextSlot(|skills|), key);
  }

  /**
   * A role of ordered_bullets, when prefixes are distinct and no skill uses
   * its keys, appears in the collected data with its
   * title, its bullets as P1..Pn in their current order, and "" in
   * P(n+1)..P5.
   */
  lemma CollectorRoleSpec(ordered: Dict<string, seq<Rec>>, titles: Dict<string, string>, skills: seq<OrderedSkill>, k: nat)
    requires DistinctPrefixes(Keys(ordered)) && k < |ordered|
    requires forall j :: 0 <= j < |skills| ==> Foreign(Prefix(ordered[k].0), skills[j].key)
    ensures var data := CollectorData(ordered, titles, skills);
      var (role, bullets) := ordered[k];
      var p := Prefix(role);
      && Get(data, TitleKey(p)) == Some(Title(role, titles))
      && (forall i :: 1 <= i <= |bullets| ==> Get(data, BulletKey(p, i)) == Some(bullets[i - 1].bullet))
      && (forall i :: |bullets| < i <= MaxBullets ==> Get(data, BulletKey(p, i)) == Some(""))
  {
    var (role, bullets) := ordered[k];
    var p := Prefix(role);
    OrderedRoleSpec(OrderedRoles(ordered[..k], titles), role, titles, bullets);
    CollectorRole(ordered, titles, skills, k, TitleKey(p));
    forall i | 1 <= i <= |bullets| ensures Get(CollectorData(ordered, titles, skills), BulletKey(p, i)) == Some(bullets[i - 1].bullet) {
      CollectorRole(ordered, titles, skills, k, BulletKey(p, i));
    }
    forall i | |bullets| < i <= MaxBullets ensures Get(CollectorData(ordered, titles, skills), BulletKey(p, i)) == Some("") {
      CollectorRole(ordered, titles, skills, k, BulletKey(p, i));
    }
  }

  /** A key that is neither a skill's own key nor a slot key is left alone by the skill loop. */
  lemma {:induction false} PutSkillsOther(d: Dict<string, string>, skills: seq<OrderedSkill>, key: string)
    requires forall j :: 0 <= j < |skills| ==> key != skills[j].key
    requires forall j :: key != SkillKey(j)
    ensures Get(PutSkills(d, skills), key) == Get(d, key)
    decreases |skills|
  {
    if skills != [] {
      var n := |skills|;
      var s := skills[n - 1];
      var prev := PutSkills(d, skills[..n - 1]);
      PutSkillsOther(d, skills[..n - 1], key);
      PutGet(prev, s.key, s.value, key);
      PutGet(Put(prev, s.key, s.value), SkillKey(n), s.value, key);
    }
  }

  /** The roles' title keys are all present in the data. */
  lemma CollectorTitles(ordered: Dict<string, seq<Rec>>, titles: Dict<string, string>, skills: seq<OrderedSkill>, k: nat)
    requires k < |ordered|
    ensures HasKey(CollectorData(ordered, titles, skills), TitleKey(Prefix(ordered[k].0)))
  {
    var key := TitleKey(Prefix(ordered[k].0));
    OrderedRolesTitles(ordered, titles, k);
    PutSkillsKeeps(OrderedRoles(ordered, titles), skills, key);
    ClearSkillsKeeps(PutSkills(OrderedRoles(ordered, titles), skills), NextSlot(|skills|), key);
  }

  /** A later skill stored under an earlier slot's key overwrites that slot. */
  lemma SlotOverwritten(a: OrderedSkill, b: OrderedSkill)
    requires a.value != b.value && b.key == SkillKey(1)
    ensures Get(CollectorData([], [], [a, b]), SkillKey(1)) == Some(b.value)
    ensures Get(CollectorData([], [], [a, b]), SkillKey(1)) != Some(a.value)
  {
    var skills := [a, b];
    var d1 := PutSkills([], skills[..1]);
    assert skills[..1] == [a] && [a][..0] == [];
    var r := Put(d1, b.key, b.value);
    PutGet(r, SkillKey(2), b.value, SkillKey(1));
    PutGet(d1, b.key, b.value, SkillKey(1));
    if SkillKey(1) == SkillKey(2) { SkillKeyInjective(1, 2); }
    forall j | 3 <= j <= SkillSlots ensures SkillKey(1) != SkillKey(j) {
      if SkillKey(1) == SkillKey(j) { SkillKeyInjective(1, j); }
    }
    ClearSkillsOther(PutSkills([], skills), NextSlot(2), SkillKey(1));
  }

  // ---------------------------------------------------------------- selection statistics

  datatype Stats = Stats(totalBullets: nat, totalLines: int, totalSkills: nat)

  function SeqLines(bullets: seq<Rec>): int
    decreases |bullets|
  {
    if bullets == [] then 0 else SeqLines(bullets[..|bullets| - 1]) + LinesOf(bullets[|bullets| - 1])
  }

  function BulletCount(ordered: Dict<string, seq<Rec>>): nat
    decreases |ordered|
  {
    if ordered == [] then 0 else BulletCount(ordered[..|ordered| - 1]) + |ordered[|ordered| - 1].1|
  }

  function LineCount(ordered: Dict<string, seq<Rec>>): int
    decreases |ordered|
  {
    if ordered == [] then 0 else LineCount(ordered[..|ordered| - 1]) + SeqLines(ordered[|ordered| - 1].1)
  }

  /** calculate_selection_stats. */
  function SelectionStats(ordered: Dict<string, seq<Rec>>, skills: seq<OrderedSkill>): Stats
  {
    Stats(BulletCount(ordered), LineCount(ordered), |skills|)
  }

  lemma {:induction false} SeqLinesConcat(a: seq<Rec>, b: seq<Rec>)
    ensures SeqLines(a + b) == SeqLines(a) + SeqLines(b)
    decreases |b|
  {
    if b != [] {
      assert (a + b)[..|a + b| - 1] == a + b[..|b| - 1];
      SeqLinesConcat(a, b[..|b| - 1]);
    } else {
      assert a + b == a;
    }
  }

  lemma SingleLines(x: Rec)
    ensures SeqLines([x]) == LinesOf(x)
  {
    assert [x][..0] == [];
  }

  lemma {:induction false} RemoveLines(s: seq<Rec>, i: nat)
    requires i < |s|
    ensures SeqLines(Remove(s, i)) + LinesOf(s[i]) == SeqLines(s)
    decreases |s|
  {
    var n := |s| - 1;
    var r := Remove(s, i);
    if i == n {
      assert r == s[..n];
    } else {
      var init := s[..n];
      RemoveLines(init, i);
      assert r[..|r| - 1] == Remove(init, i);
      assert r[|r| - 1] == s[n];
      assert init[i] == s[i];
    }
  }

  lemma InsertLines(s: seq<Rec>, i: nat, x: Rec)
    requires i <= |s|
    ensures SeqLines(Insert(s, i, x)) == SeqLines(s) + LinesOf(x)
  {
    assert s == s[..i] + s[i..];
    SeqLinesConcat(s[..i] + [x], s[i..]);
    SeqLinesConcat(s[..i], [x]);
    SeqLinesConcat(s[..i], s[i..]);
    SingleLines(x);
  }

  /** Moving a bullet within its list keeps the list's line sum. */
  lemma MoveLines(s: seq<Rec>, from: nat, to: nat)
    requires from < |s| && to < |s|
    ensures SeqLines(Move(s, from, to)) == SeqLines(s)
  {
    RemoveLines(s, from);
    InsertLines(Remove(s, from), to, s[from]);
  }

  /** Replacing one role's list by another of equal length and line sum keeps both totals. */
  lemma {:induction false} CountsPut(ordered: Dict<string, seq<Rec>>, role: string, v: seq<Rec>)
    requires HasKey(ordered, role)
    requires |v| == |GetOr(ordered, role, [])| && SeqLines(v) == SeqLines(GetOr(ordered, role, []))
    ensures BulletCount(Put(ordered, role, v)) == BulletCount(ordered)
    ensures LineCount(Put(ordered, role, v)) == LineCount(ordered)
    decreases |ordered|
  {
    var e, rest := ordered[0], ordered[1..];
    assert ordered == [e] + rest;
    FrontCounts(e, rest);
    if e.0 != role {
      KeysCons(ordered);
      assert GetOr(rest, role, []) == GetOr(ordered, role, []);
      CountsPut(rest, role, v);
      assert Put(ordered, role, v) == [e] + Put(rest, role, v);
      FrontCounts(e, Put(rest, role, v));
    } else {
      assert Put(ordered, role, v) == [(role, v)] + rest;
      assert GetOr(ordered, role, []) == e.1;
      FrontCounts((role, v), rest);
    }
  }

  /** The totals of a dict split at its first pair. */
  lemma {:induction false} FrontCounts(e: (string, seq<Rec>), rest: Dict<string, seq<Rec>>)
    ensures BulletCount([e] + rest) == |e.1| + BulletCount(rest)
    ensures LineCount([e] + rest) == SeqLines(e.1) + LineCount(rest)
    decreases |rest|
  {
    if rest != [] {
      var d := [e] + rest;
      assert d[..|d| - 1] == [e] + rest[..|rest| - 1];
      FrontCounts(e, rest[..|rest| - 1]);
    } else {
      assert ([e] + rest)[..0] == [];
    }
  }

  /** Dragging a bullet within its role leaves every statistic unchanged. */
  lemma StatsAfterBulletDrop(ordered: Dict<string, seq<Rec>>, drag: Option<BulletsSection.BulletDrag>, yRoot: int,
                             role: string, index: int, skills: seq<OrderedSkill>)
    requires BulletsSection.CanDrop(ordered, drag, yRoot, role, index)
    ensures SelectionStats(BulletsSection.BulletDrop(ordered, drag, yRoot, role, index), skills) == SelectionStats(ordered, skills)
  {
    var r := BulletsSection.BulletDrop(ordered, drag, yRoot, role, index);
    if r != ordered {
      var bullets := GetOr(ordered, role, []);
      var target := StepTarget(index, |bullets|, yRoot - drag.value.startY);
      StepTargetSpec(index, |bullets|, yRoot - drag.value.startY);
      assert r == Put(ordered, role, Move(bullets, index, target));
      MoveLines(bullets, index, target);
      MoveSpec(bullets, index, target);
      CountsPut(ordered, role, Move(bullets, index, target));
    }
  }

  /** Dragging a skill group or a skill within its group leaves every statistic unchanged. */
  lemma StatsAfterSkillDrops(ordered: Dict<string, seq<Rec>>, skills: seq<OrderedSkill>, drag: Option<SkillsSection.SkillDrag>,
                             yRoot: int, group: int, index: int)
    ensures SkillsSection.CanGroupDrop(skills, drag, yRoot, index) ==>
      SelectionStats(ordered, SkillsSection.GroupDrop(skills, drag, yRoot, index)) == SelectionStats(ordered, skills)
    ensures SkillsSection.CanSkillDrop(skills, drag, yRoot, group, index) ==>
      SelectionStats(ordered, SkillsSection.SkillDrop(skills, drag, yRoot, group, index)) == SelectionStats(ordered, skills)
  {
    if SkillsSection.CanGroupDrop(skills, drag, yRoot, index) {
      SkillsSection.GroupDropSpec(skills, drag, yRoot, index);
    }
    if SkillsSection.CanSkillDrop(skills, drag, yRoot, group, index) {
      SkillsSection.SkillDropSpec(skills, drag, yRoot, group, index);
    }
  }

  // ---------------------------------------------------------------- the collector object

  class TemplateDataCollector {
    const app: Application.ResumeBuilderApp

    constructor (app: Application.ResumeBuilderApp)
      ensures this.app == app
    {
      this.app := app;
    }

    /** collect_final_template_data: the role loop, the counted skill loop and the slot clearing. */
    method CollectFinalTemplateData() returns (data: Dict<string, string>)
      ensures data == CollectorData(app.orderedBullets, app.roleTitles, app.orderedSkills)
    {
      data := AddOrderedRoles(app.orderedBullets, app.roleTitles);
      var skillNumber;
      data, skillNumber := AddOrderedSkills(data, app.orderedSkills);
      data := ClearSlots(data, skillNumber);
    }

    /** calculate_selection_stats over the application's ordered data. */
    method CalculateSelectionStats() returns (stats: Stats)
      ensures stats == SelectionStats(app.orderedBullets, app.orderedSkills)
    {
      stats := SelectionStats(app.orderedBullets, app.orderedSkills);
    }
  }

  /** `for role, bullets_data in ordered_bullets.items()`. */
  method AddOrderedRoles(ordered: Dict<string, seq<Rec>>, titles: Dict<string, string>) returns (data: Dict<string, string>)
    ensures data == OrderedRoles(ordered, titles)
  {
    data := [];
    var i := 0;
    while i < |ordered|
      invariant 0 <= i <= |ordered|
      invariant data == OrderedRoles(ordered[..i], titles)
    {
      OrderedRolesAt(ordered, titles, i);
      var (role, bullets) := ordered[i];
      data := AddOrderedRole(data, role, titles, bullets);
      i := i + 1;
    }
    assert ordered[..i] == ordered;
  }

  /** One role: its title, its listed bullets and the cleared slots. */
  method AddOrderedRole(d: Dict<string, string>, role: string, titles: Dict<string, string>, bullets: seq<Rec>) returns (data: Dict<string, string>)
    ensures data == OrderedRole(d, role, titles, bullets)
  {
    var p := Prefix(role);
    data := Put(d, TitleKey(p), Title(role, titles));
    data := AddListed(data, p, bullets);
    data := ClearUnused(data, p, |bullets| + 1);
  }

  /** The skill loop with its skill_number counter, returned with the data. */
  method AddOrderedSkills(d: Dict<string, string>, skills: seq<OrderedSkill>) returns (data: Dict<string, string>, skillNumber: nat)
    ensures data == PutSkills(d, skills) && skillNumber == NextSlot(|skills|)
  {
    data := d;
    skillNumber := 1;
    var j := 0;
    while j < |skills|
      invariant 0 <= j <= |skills|
      invariant skillNumber == NextSlot(j)
      invariant data == PutSkills(d, skills[..j])
    {
      PutSkillsAt(d, skills, j);
      data := Put(data, skills[j].key, skills[j].value);
      if skillNumber <= SkillSlots {
        data := Put(data, SkillKey(skillNumber), skills[j].value);
        skillNumber := skillNumber + 1;
      }
      j := j + 1;
    }
    assert skills[..j] == skills;
  }

  /** `for i in range(skill_number, 5): data[SKILL_i] = ""`. */
  method ClearSlots(d: Dict<string, string>, start: nat) returns (data: Dict<string, string>)
    ensures data == ClearSkills(d, start)
  {
    data := d;
    var s := start;
    while s <= SkillSlots
      invariant ClearSkills(data, s) == ClearSkills(d, start)
      decreases SkillSlots + 1 - s
    {
      data := Put(data, SkillKey(s), "");
      s := s + 1;
    }
  }

  /** `for i, bullet in enumerate(bullets, start=1)`. */
  method AddListed(d: Dict<string, string>, p: string, bullets: seq<Rec>) returns (data: Dict<string, string>)
    ensures data == ListBullets(d, p, bullets)
  {
    data := d;
    var i := 0;
    while i < |bullets|
      invariant 0 <= i <= |bullets|
      invariant data == ListBullets(d, p, bullets[..i])
    {
      ListBulletsAt(d, p, bullets, i);
      data := Put(data, BulletKey(p, i + 1), bullets[i].bullet);
      i := i + 1;
    }
    assert bullets[..i] == bullets;
  }
}
