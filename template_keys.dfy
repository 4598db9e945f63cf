/**
 * The template placeholders the wizard fills: a key prefix per role,
 * PREFIX_TITLE, PREFIX_P1 .. PREFIX_P5 and SKILL_1 .. SKILL_4, and the
 * selection-driven template data shared by the review panel and the desktop
 * application.
 */
module TemplateKeys {
  import opened Wrappers
  import opened Text
  import opened Assoc
  import opened Records

  /** The fixed prefixes of the four known roles. */
  const RoleMapping: Dict<string, string> := [("Nodelink", "NODELINK"), ("MAMM", "MAMM"), ("FactCheckAI", "FACTCHECK"), ("Medical Classifier", "MEDICAL")]

  /** The roles whose job title is taken from the title entry. */
  const TitledRoles: seq<string> := ["Nodelink", "MAMM"]

  const MaxBullets := 5
  const SkillSlots := 4

  /** role.upper().replace(' ', '').replace('-', ''). */
  function KeyBase(role: string): string
  {
    Replace(Replace(Upper(role), " ", ""), "-", "")
  }

  /** role_mapping.get(role, <key base>). */
  function Prefix(role: string): string
  {
    GetOr(RoleMapping, role, KeyBase(role))
  }

  function TitleKey(prefix: string): string
  {
    prefix + "_TITLE"
  }

  function BulletKey(prefix: string, i: nat): string
  {
    prefix + "_P" + NatToString(i)
  }

  function SkillKey(i: nat): string
  {
    "SKILL_" + NatToString(i)
  }

  /** Removing every occurrence of a character leaves none and adds none. */
  lemma {:induction false} ReplaceRemoves(s: string, c: char)
    ensures c !in Replace(s, [c], "")
    ensures forall x :: x in Replace(s, [c], "") ==> x in s
    decreases |s|
  {
    if |s| >= 1 {
      ReplaceRemoves(s[1..], c);
      if !([c] <= s) {
        assert s[0] != c;
      }
    }
  }

  /** An unmapped role's prefix has no space, no hyphen and no lower-case letter. */
  lemma KeyBaseSpec(role: string)
    ensures ' ' !in KeyBase(role) && '-' !in KeyBase(role)
    ensures forall x :: x in KeyBase(role) ==> !IsAsciiLower(x)
  {
    var u := Upper(role);
    ReplaceRemoves(u, ' ');
    ReplaceRemoves(Replace(u, " ", ""), '-');
    assert [' '] == " " && ['-'] == "-";
  }

  /** The four known roles use their fixed prefixes; any other role its key base. */
  lemma PrefixSpec(role: string)
    ensures role == "Nodelink" ==> Prefix(role) == "NODELINK"
    ensures role == "MAMM" ==> Prefix(role) == "MAMM"
    ensures role == "FactCheckAI" ==> Prefix(role) == "FACTCHECK"
    ensures role == "Medical Classifier" ==> Prefix(role) == "MEDICAL"
    ensures role !in Keys(RoleMapping) ==> Prefix(role) == KeyBase(role)
  {
    GetSpec(RoleMapping, role);
  }

  // ---------------------------------------------------------------- key distinctness

  /** A title key ends in a letter, a bullet key in a digit. */
  lemma TitleNotBullet(p: string, q: string, i: nat)
    ensures TitleKey(p) != BulletKey(q, i)
  {
    var t := TitleKey(p);
    var b := BulletKey(q, i);
    assert t[|t| - 1] == 'E';
    assert b[|b| - 1] == NatToString(i)[|NatToString(i)| - 1];
  }

  lemma TitleKeyInjective(p: string, q: string)
    requires TitleKey(p) == TitleKey(q)
    ensures p == q
  {
    assert |p| == |q|;
    assert p == TitleKey(p)[..|p|];
  }

  /** After its prefix, a bullet key has no '_' but the one that opens "_P". */
  lemma BulletKeyTail(p: string, i: nat, k: nat)
    requires |p| < k < |BulletKey(p, i)|
    ensures BulletKey(p, i)[k] != '_'
  {
    if k > |p| + 1 {
      assert BulletKey(p, i)[k] == NatToString(i)[k - |p| - 2];
    }
  }

  /** A bullet key determines its prefix and its number. */
  lemma BulletKeyJoint(p: string, i: nat, q: string, j: nat)
    requires BulletKey(p, i) == BulletKey(q, j)
    ensures p == q && i == j
  {
    if |p| < |q| {
      BulletKeyTail(p, i, |q|);
      assert false;
    } else if |q| < |p| {
      BulletKeyTail(q, j, |p|);
      assert false;
    } else {
      assert p == BulletKey(p, i)[..|p|] == q;
      BulletKeyInjective(p, i, j);
    }
  }

  lemma BulletKeyInjective(p: string, i: nat, j: nat)
    requires BulletKey(p, i) == BulletKey(p, j)
    ensures i == j
  {
    var b := p + "_P";
    assert BulletKey(p, i)[|b|..] == NatToString(i);
    assert BulletKey(p, j)[|b|..] == NatToString(j);
    NatToStringInjective(i, j);
  }

  lemma SkillKeyInjective(i: nat, j: nat)
    requires SkillKey(i) == SkillKey(j)
    ensures i == j
  {
    assert SkillKey(i)[6..] == NatToString(i);
    assert SkillKey(j)[6..] == NatToString(j);
    NatToStringInjective(i, j);
  }

  /** No bullet key and no title key is a skill key. */
  lemma RoleKeyNotSkill(p: string, i: nat, j: nat)
    ensures BulletKey(p, i) != SkillKey(j)
    ensures TitleKey(p) != SkillKey(j)
  {
    var b := BulletKey(p, i);
    var s := SkillKey(j);
    assert s[..6] == "SKILL_";
    if |b| == |s| {
      assert b[|p| + 1] == 'P';
      if |p| + 1 < 6 {
        assert s[|p| + 1] == "SKILL_"[|p| + 1];
      } else {
        assert s[|p| + 1] == NatToString(j)[|p| + 1 - 6];
      }
    }
    var t := TitleKey(p);
    if |t| == |s| {
      assert t[|t| - 1] == 'E';
      assert s[|s| - 1] == NatToString(j)[|NatToString(j)| - 1];
    }
  }

  /** A key no role with prefix p writes. */
  ghost predicate Foreign(p: string, key: string)
  {
    key != TitleKey(p) && forall i :: key != BulletKey(p, i)
  }

  /** The keys of one prefix are foreign to every other prefix, and skill keys to all. */
  lemma ForeignKeys(p: string, q: string)
    ensures p != q ==> Foreign(q, TitleKey(p)) && forall i :: Foreign(q, BulletKey(p, i))
    ensures forall j :: Foreign(p, SkillKey(j))
  {
    if p != q {
      if TitleKey(p) == TitleKey(q) { TitleKeyInjective(p, q); }
      forall i ensures TitleKey(p) != BulletKey(q, i) { TitleNotBullet(p, q, i); }
      forall i ensures Foreign(q, BulletKey(p, i)) {
        TitleNotBullet(q, p, i);
        forall j ensures BulletKey(p, i) != BulletKey(q, j) {
          if BulletKey(p, i) == BulletKey(q, j) { BulletKeyJoint(p, i, q, j); }
        }
      }
    }
    forall j ensures Foreign(p, SkillKey(j)) {
      RoleKeyNotSkill(p, 0, j);
      forall i ensures SkillKey(j) != BulletKey(p, i) { RoleKeyNotSkill(p, i, j); }
    }
  }

  /** No two roles share a key prefix. */
  predicate DistinctPrefixes(roles: seq<string>)
  {
    forall i, j :: 0 <= i < j < |roles| ==> Prefix(roles[i]) != Prefix(roles[j])
  }

  /** The four known roles have four different prefixes. */
  lemma KnownPrefixesDistinct()
    ensures DistinctPrefixes(Keys(RoleMapping))
  {
    var roles := Keys(RoleMapping);
    assert roles == ["Nodelink", "MAMM", "FactCheckAI", "Medical Classifier"];
    forall i, j | 0 <= i < j < |roles| ensures Prefix(roles[i]) != Prefix(roles[j]) {
      PrefixSpec(roles[i]);
      PrefixSpec(roles[j]);
    }
  }

  // ---------------------------------------------------------------- sorted(selected_indices)

  lemma MinExists(s: set<nat>)
    requires s != {}
    ensures exists m :: m in s && forall x :: x in s ==> m <= x
  {
    var x :| x in s;
    MinBelow(s, x);
  }

  /** Descending from any element reaches one that no element undercuts. */
  lemma {:induction false} MinBelow(s: set<nat>, x: nat)
    requires x in s
    ensures exists m :: m in s && forall y :: y in s ==> m <= y
    decreases x
  {
    if exists y :: y in s && y < x {
      var y :| y in s && y < x;
      MinBelow(s, y);
    } else {
      assert forall y :: y in s ==> x <= y;
    }
  }

  /** The smallest element of a non-empty set of indices. */
  ghost function Min(s: set<nat>): (m: nat)
    requires s != {}
    ensures m in s && forall x :: x in s ==> m <= x
  {
    MinExists(s);
    var m :| m in s && forall x :: x in s ==> m <= x;
    m
  }

  /** sorted(s) for a set of indices: smallest first. */
  ghost function SortedIndices(s: set<nat>): seq<nat>
    decreases |s|
  {
    if s == {} then [] else [Min(s)] + SortedIndices(s - {Min(s)})
  }

  /** The sorted indices are strictly increasing and are exactly the set's elements. */
  lemma {:induction false} SortedIndicesSpec(s: set<nat>)
    ensures var r := SortedIndices(s);
      && |r| == |s|
      && (forall i, j :: 0 <= i < j < |r| ==> r[i] < r[j])
      && (forall x :: x in s <==> x in r)
    decreases |s|
  {
    if s != {} {
      var m := Min(s);
      var rest := s - {m};
      var t := SortedIndices(rest);
      SortedIndicesSpec(rest);
      assert SortedIndices(s) == [m] + t;
      forall i, j | 0 <= i < j < |[m] + t| ensures ([m] + t)[i] < ([m] + t)[j] {
        if i == 0 {
          assert t[j - 1] in rest;
        }
      }
    }
  }

  /** A sorted sequence starts with the minimum of the set. */
  lemma SortedIndicesHead(s: set<nat>, m: nat)
    requires m in s && forall x :: x in s ==> m <= x
    ensures SortedIndices(s) == [m] + SortedIndices(s - {m})
  {
    assert Min(s) <= m && m <= Min(s);
  }

  /** The smallest remaining index, found by a scan over the set. */
  method MinOf(s: set<nat>) returns (m: nat)
    requires s != {}
    ensures m == Min(s)
  {
    m :| m in s;
    var rest := s - {m};
    while rest != {}
      invariant m in s && rest <= s
      invariant forall x :: x in s && x !in rest ==> m <= x
      decreases |rest|
    {
      var y :| y in rest;
      if y < m {
        m := y;
      }
      rest := rest - {y};
    }
    assert m <= Min(s) && Min(s) <= m;
  }

  /** The call to sorted(): repeatedly take the smallest remaining index. */
  method SortIndices(s: set<nat>) returns (r: seq<nat>)
    ensures r == SortedIndices(s)
  {
    r := [];
    var rest := s;
    while rest != {}
      invariant r + SortedIndices(rest) == SortedIndices(s)
      decreases |rest|
    {
      var m := MinOf(rest);
      SortedIndicesHead(rest, m);
      r := r + [m];
      rest := rest - {m};
    }
  }

  // ---------------------------------------------------------------- one role

  /** The title entry's text, stripped, for Nodelink and MAMM when they have an entry; "" otherwise. */
  function Title(role: string, titles: Dict<string, string>): string
  {
    if role in TitledRoles && HasKey(titles, role) then Strip(GetOr(titles, role, "")) else ""
  }

  /** `for i, idx in enumerate(sorted, start=1): if idx < len(bullets): data[P{i}] = bullets[idx]['bullet']`. */
  function FillBullets(d: Dict<string, string>, p: string, sorted: seq<nat>, bullets: seq<Rec>): Dict<string, string>
    decreases |sorted|
  {
    if sorted == [] then d
    else
      var n := |sorted|;
      var prev := FillBullets(d, p, sorted[..n - 1], bullets);
      if sorted[n - 1] < |bullets| then Put(prev, BulletKey(p, n), bullets[sorted[n - 1]].bullet) else prev
  }

  lemma FillBulletsAt(d: Dict<string, string>, p: string, sorted: seq<nat>, bullets: seq<Rec>, i: nat)
    requires i < |sorted|
    ensures FillBullets(d, p, sorted[..i + 1], bullets) ==
      var prev := FillBullets(d, p, sorted[..i], bullets);
      if sorted[i] < |bullets| then Put(prev, BulletKey(p, i + 1), bullets[sorted[i]].bullet) else prev
  {
    var r := sorted[..i + 1];
    assert r[..|r| - 1] == sorted[..i];
  }

  lemma {:induction false} FillBulletsOther(d: Dict<string, string>, p: string, sorted: seq<nat>, bullets: seq<Rec>, k: string)
    requires forall i :: 1 <= i <= |sorted| ==> k != BulletKey(p, i)
    ensures Get(FillBullets(d, p, sorted, bullets), k) == Get(d, k)
    decreases |sorted|
  {
    if sorted != [] {
      var n := |sorted|;
      FillBulletsOther(d, p, sorted[..n - 1], bullets, k);
      if sorted[n - 1] < |bullets| {
        PutGet(FillBullets(d, p, sorted[..n - 1], bullets), BulletKey(p, n), bullets[sorted[n - 1]].bullet, k);
      }
    }
  }

  /** The i-th key gets the bullet at the i-th index when that index is in range, and is left alone otherwise. */
  lemma {:induction false} FillBulletsGet(d: Dict<string, string>, p: string, sorted: seq<nat>, bullets: seq<Rec>, i: nat)
    requires 1 <= i <= |sorted|
    ensures Get(FillBullets(d, p, sorted, bullets), BulletKey(p, i)) ==
      if sorted[i - 1] < |bullets| then Some(bullets[sorted[i - 1]].bullet) else Get(d, BulletKey(p, i))
    decreases |sorted|
  {
    var n := |sorted|;
    var prev := FillBullets(d, p, sorted[..n - 1], bullets);
    if i == n {
      forall j | 1 <= j <= n - 1 ensures BulletKey(p, i) != BulletKey(p, j) {
        if BulletKey(p, i) == BulletKey(p, j) { BulletKeyInjective(p, i, j); }
      }
      FillBulletsOther(d, p, sorted[..n - 1], bullets, BulletKey(p, i));
      if sorted[n - 1] < |bullets| {
        PutGet(prev, BulletKey(p, n), bullets[sorted[n - 1]].bullet, BulletKey(p, i));
      }
    } else {
      FillBulletsGet(d, p, sorted[..n - 1], bullets, i);
      if BulletKey(p, i) == BulletKey(p, n) { BulletKeyInjective(p, i, n); }
      if sorted[n - 1] < |bullets| {
        PutGet(prev, BulletKey(p, n), bullets[sorted[n - 1]].bullet, BulletKey(p, i));
      }
    }
  }

  /** `for i in range(k, 6): data[P{i}] = ""`. */
  function ClearFrom(d: Dict<string, string>, p: string, k: nat): Dict<string, string>
    decreases MaxBullets + 1 - k
  {
    if k > MaxBullets then d else ClearFrom(Put(d, BulletKey(p, k), ""), p, k + 1)
  }

  lemma {:induction false} ClearFromOther(d: Dict<string, string>, p: string, k: nat, key: string)
    requires forall j :: k <= j <= MaxBullets ==> key != BulletKey(p, j)
    ensures Get(ClearFrom(d, p, k), key) == Get(d, key)
    decreases MaxBullets + 1 - k
  {
    if k <= MaxBullets {
      PutGet(d, BulletKey(p, k), "", key);
      ClearFromOther(Put(d, BulletKey(p, k), ""), p, k + 1, key);
    }
  }

  lemma {:induction false} ClearFromGet(d: Dict<string, string>, p: string, k: nat, j: nat)
    requires k <= j <= MaxBullets
    ensures Get(ClearFrom(d, p, k), BulletKey(p, j)) == Some("")
    decreases MaxBullets + 1 - k
  {
    var d' := Put(d, BulletKey(p, k), "");
    if j == k {
      forall j' | k + 1 <= j' <= MaxBullets ensures BulletKey(p, j) != BulletKey(p, j') {
        if BulletKey(p, j) == BulletKey(p, j') { BulletKeyInjective(p, j, j'); }
      }
      ClearFromOther(d', p, k + 1, BulletKey(p, j));
      PutGet(d, BulletKey(p, k), "", BulletKey(p, j));
    } else {
      ClearFromGet(d', p, k + 1, j);
    }
  }

  /** Clearing never removes a key: assignment only adds or overwrites. */
  lemma {:induction false} ClearFromKeeps(d: Dict<string, string>, p: string, k: nat, key: string)
    requires HasKey(d, key)
    ensures HasKey(ClearFrom(d, p, k), key)
    decreases MaxBullets + 1 - k
  {
    if k <= MaxBullets {
      PutKeys(d, BulletKey(p, k), "");
      ClearFromKeeps(Put(d, BulletKey(p, k), ""), p, k + 1, key);
    }
  }

  /** The entries one role contributes: its title, its sorted selected bullets, then "" for the unused slots. */
  ghost function RoleEntries(d: Dict<string, string>, role: string, titles: Dict<string, string>,
                             selected: Dict<string, set<nat>>, recs: Dict<string, seq<Rec>>): Dict<string, string>
  {
    var p := Prefix(role);
    var sorted := SortedIndices(GetOr(selected, role, {}));
    ClearFrom(FillBullets(Put(d, TitleKey(p), Title(role, titles)), p, sorted, GetOr(recs, role, [])), p, |sorted| + 1)
  }

  /**
   * A role's entries: the title key holds its title; P_i holds the bullet at
   * the i-th smallest selected index when that index is in range; the slots
   * after the last selected one, up to P5, hold "".
   */
  lemma RoleEntriesSpec(d: Dict<string, string>, role: string, titles: Dict<string, string>,
                        selected: Dict<string, set<nat>>, recs: Dict<string, seq<Rec>>)
    ensures var r := RoleEntries(d, role, titles, selected, recs);
      var p := Prefix(role);
      var sorted := SortedIndices(GetOr(selected, role, {}));
      var bullets := GetOr(recs, role, []);
      && Get(r, TitleKey(p)) == Some(Title(role, titles))
      && (forall i :: 1 <= i <= |sorted| && sorted[i - 1] < |bullets| ==>
            Get(r, BulletKey(p, i)) == Some(bullets[sorted[i - 1]].bullet))
      && (forall i :: |sorted| < i <= MaxBullets ==> Get(r, BulletKey(p, i)) == Some(""))
  {
    var p := Prefix(role);
    var sorted := SortedIndices(GetOr(selected, role, {}));
    var bullets := GetOr(recs, role, []);
    var d1 := Put(d, TitleKey(p), Title(role, titles));
    var d2 := FillBullets(d1, p, sorted, bullets);
    PutGet(d, TitleKey(p), Title(role, titles), TitleKey(p));
    forall i | 1 <= i <= |sorted| ensures TitleKey(p) != BulletKey(p, i) { TitleNotBullet(p, p, i); }
    FillBulletsOther(d1, p, sorted, bullets, TitleKey(p));
    forall j | |sorted| + 1 <= j <= MaxBullets ensures TitleKey(p) != BulletKey(p, j) { TitleNotBullet(p, p, j); }
    ClearFromOther(d2, p, |sorted| + 1, TitleKey(p));
    forall i | 1 <= i <= |sorted| && sorted[i - 1] < |bullets|
      ensures Get(RoleEntries(d, role, titles, selected, recs), BulletKey(p, i)) == Some(bullets[sorted[i - 1]].bullet)
    {
      FillBulletsGet(d1, p, sorted, bullets, i);
      forall j | |sorted| + 1 <= j <= MaxBullets ensures BulletKey(p, i) != BulletKey(p, j) {
        if BulletKey(p, i) == BulletKey(p, j) { BulletKeyInjective(p, i, j); }
      }
      ClearFromOther(d2, p, |sorted| + 1, BulletKey(p, i));
    }
    forall i | |sorted| < i <= MaxBullets ensures Get(RoleEntries(d, role, titles, selected, recs), BulletKey(p, i)) == Some("") {
      ClearFromGet(d2, p, |sorted| + 1, i);
    }
  }

  /** Only title and bullet keys are written for a role. */
  lemma RoleEntriesOther(d: Dict<string, string>, role: string, titles: Dict<string, string>,
                         selected: Dict<string, set<nat>>, recs: Dict<string, seq<Rec>>, k: string)
    requires Foreign(Prefix(role), k)
    ensures Get(RoleEntries(d, role, titles, selected, recs), k) == Get(d, k)
  {
    var p := Prefix(role);
    var sorted := SortedIndices(GetOr(selected, role, {}));
    var d1 := Put(d, TitleKey(p), Title(role, titles));
    PutGet(d, TitleKey(p), Title(role, titles), k);
    FillBulletsOther(d1, p, sorted, GetOr(recs, role, []), k);
    ClearFromOther(FillBullets(d1, p, sorted, GetOr(recs, role, [])), p, |sorted| + 1, k);
  }

  // ---------------------------------------------------------------- all roles, then skills

  /** The role loop over the requirement keys. */
  ghost function AllRoles(roles: seq<string>, titles: Dict<string, string>,
                          selected: Dict<string, set<nat>>, recs: Dict<string, seq<Rec>>): Dict<string, string>
    decreases |roles|
  {
    if roles == [] then []
    else RoleEntries(AllRoles(roles[..|roles| - 1], titles, selected, recs), roles[|roles| - 1], titles, selected, recs)
  }

  lemma AllRolesAt(roles: seq<string>, titles: Dict<string, string>, selected: Dict<string, set<nat>>, recs: Dict<string, seq<Rec>>, i: nat)
    requires i < |roles|
    ensures AllRoles(roles[..i + 1], titles, selected, recs) == RoleEntries(AllRoles(roles[..i], titles, selected, recs), roles[i], titles, selected, recs)
  {
    var r := roles[..i + 1];
    assert r[..|r| - 1] == roles[..i];
  }

  /** The role loop writes no skill key. */
  lemma {:induction false} AllRolesNoSkill(roles: seq<string>, titles: Dict<string, string>,
                                           selected: Dict<string, set<nat>>, recs: Dict<string, seq<Rec>>, j: nat)
    ensures Get(AllRoles(roles, titles, selected, recs), SkillKey(j)) == None
    decreases |roles|
  {
    if roles != [] {
      var role := roles[|roles| - 1];
      AllRolesNoSkill(roles[..|roles| - 1], titles, selected, recs, j);
      ForeignKeys(Prefix(role), Prefix(role));
      RoleEntriesOther(AllRoles(roles[..|roles| - 1], titles, selected, recs), role, titles, selected, recs, SkillKey(j));
    }
  }

  /** Every role's title key is present after the role loop. */
  lemma {:induction false} AllRolesTitles(roles: seq<string>, titles: Dict<string, string>,
                                          selected: Dict<string, set<nat>>, recs: Dict<string, seq<Rec>>, role: string)
    requires role in roles
    ensures HasKey(AllRoles(roles, titles, selected, recs), TitleKey(Prefix(role)))
    decreases |roles|
  {
    var n := |roles| - 1;
    var prev := AllRoles(roles[..n], titles, selected, recs);
    var last := roles[n];
    if role != last {
      assert role in roles[..n];
      AllRolesTitles(roles[..n], titles, selected, recs, role);
    }
    RoleEntriesKeeps(prev, last, titles, selected, recs, TitleKey(Prefix(role)));
    var p := Prefix(last);
    PutKeys(prev, TitleKey(p), Title(last, titles));
  }

  /** Roles after the k-th whose prefixes differ from a key's leave that key as the k-th role set it. */
  lemma {:induction false} AllRolesLater(roles: seq<string>, titles: Dict<string, string>, selected: Dict<string, set<nat>>,
                                         recs: Dict<string, seq<Rec>>, k: nat, n: nat, key: string)
    requires k < n <= |roles|
    requires forall m :: k < m < n ==> Foreign(Prefix(roles[m]), key)
    ensures Get(AllRoles(roles[..n], titles, selected, recs), key) == Get(AllRoles(roles[..k + 1], titles, selected, recs), key)
    decreases n
  {
    if n > k + 1 {
      AllRolesStep(roles, titles, selected, recs, n, key);
      AllRolesLater(roles, titles, selected, recs, k, n - 1, key);
    }
  }

  /** One more role with another prefix leaves the key's value as it was. */
  lemma AllRolesStep(roles: seq<string>, titles: Dict<string, string>, selected: Dict<string, set<nat>>,
                     recs: Dict<string, seq<Rec>>, n: nat, key: string)
    requires 1 <= n <= |roles| && Foreign(Prefix(roles[n - 1]), key)
    ensures Get(AllRoles(roles[..n], titles, selected, recs), key) == Get(AllRoles(roles[..n - 1], titles, selected, recs), key)
  {
    AllRolesAt(roles, titles, selected, recs, n - 1);
    RoleEntriesOther(AllRoles(roles[..n - 1], titles, selected, recs), roles[n - 1], titles, selected, recs, key);
  }

  /** With distinct prefixes, a key of the k-th role's prefix holds what that role wrote. */
  lemma AllRolesKey(roles: seq<string>, titles: Dict<string, string>, selected: Dict<string, set<nat>>,
                    recs: Dict<string, seq<Rec>>, k: nat, key: string)
    requires DistinctPrefixes(roles) && k < |roles|
    requires key == TitleKey(Prefix(roles[k])) || exists i :: key == BulletKey(Prefix(roles[k]), i)
    ensures Get(AllRoles(roles, titles, selected, recs), key) ==
      Get(RoleEntries(AllRoles(roles[..k], titles, selected, recs), roles[k], titles, selected, recs), key)
  {
    var p := Prefix(roles[k]);
    forall m | k < m < |roles| ensures Foreign(Prefix(roles[m]), key) {
      ForeignKeys(p, Prefix(roles[m]));
    }
    AllRolesLater(roles, titles, selected, recs, k, |roles|, key);
    assert roles[..|roles|] == roles;
    AllRolesAt(roles, titles, selected, recs, k);
  }

  /** A role's entries never remove a key. */
  lemma RoleEntriesKeeps(d: Dict<string, string>, role: string, titles: Dict<string, string>,
                         selected: Dict<string, set<nat>>, recs: Dict<string, seq<Rec>>, k: string)
    requires HasKey(d, k) || k == TitleKey(Prefix(role))
    ensures HasKey(RoleEntries(d, role, titles, selected, recs), k)
  {
    var p := Prefix(role);
    var sorted := SortedIndices(GetOr(selected, role, {}));
    var d1 := Put(d, TitleKey(p), Title(role, titles));
    PutKeys(d, TitleKey(p), Title(role, titles));
    FillBulletsKeeps(d1, p, sorted, GetOr(recs, role, []), k);
    ClearFromKeeps(FillBullets(d1, p, sorted, GetOr(recs, role, [])), p, |sorted| + 1, k);
  }

  lemma {:induction false} FillBulletsKeeps(d: Dict<string, string>, p: string, sorted: seq<nat>, bullets: seq<Rec>, k: string)
    requires HasKey(d, k)
    ensures HasKey(FillBullets(d, p, sorted, bullets), k)
    decreases |sorted|
  {
    if sorted != [] {
      var n := |sorted|;
      FillBulletsKeeps(d, p, sorted[..n - 1], bullets, k);
      if sorted[n - 1] < |bullets| {
        PutKeys(FillBullets(d, p, sorted[..n - 1], bullets), BulletKey(p, n), bullets[sorted[n - 1]].bullet);
      }
    }
  }

  /** `for i in range(k, 5): if SKILL_i not in data: data[SKILL_i] = ""`. */
  function FillSkills(d: Dict<string, string>, k: nat): Dict<string, string>
    decreases SkillSlots + 1 - k
  {
    if k > SkillSlots then d
    else FillSkills(if HasKey(d, SkillKey(k)) then d else Put(d, SkillKey(k), ""), k + 1)
  }

  /** Filling keeps every existing entry and gives each missing SKILL_j (k <= j <= 4) the empty string. */
  lemma {:induction false} FillSkillsSpec(d: Dict<string, string>, k: nat, key: string)
    ensures Get(d, key).Some? ==> Get(FillSkills(d, k), key) == Get(d, key)
    ensures forall j :: k <= j <= SkillSlots && key == SkillKey(j) && Get(d, key).None? ==> Get(FillSkills(d, k), key) == Some("")
    ensures Get(d, key).None? && (forall j :: k <= j <= SkillSlots ==> key != SkillKey(j)) ==> Get(FillSkills(d, k), key) == None
    decreases SkillSlots + 1 - k
  {
    if k <= SkillSlots {
      var d' := if HasKey(d, SkillKey(k)) then d else Put(d, SkillKey(k), "");
      GetSpec(d, SkillKey(k));
      PutGet(d, SkillKey(k), "", key);
      FillSkillsSpec(d', k + 1, key);
      forall j | k <= j <= SkillSlots && key == SkillKey(j) && Get(d, key).None? ensures Get(FillSkills(d, k), key) == Some("") {
        if j == k {
          GetSpec(d', key);
        }
      }
    }
  }

  /** _collect_final_template_data of the review panel and of the desktop application. */
  ghost function SelectionData(reqs: Dict<string, int>, titles: Dict<string, string>, selected: Dict<string, set<nat>>,
                               recs: Dict<string, seq<Rec>>, skills: Dict<string, string>): Dict<string, string>
  {
    FillSkills(Update(AllRoles(Keys(reqs), titles, selected, recs), skills), 1)
  }

  /**
   * Every required role has a title key; every selected skill is present
   * with its value; SKILL_1 .. SKILL_4 are present, holding the selected
   * skill of that name or "".
   */
  lemma SelectionDataSpec(reqs: Dict<string, int>, titles: Dict<string, string>, selected: Dict<string, set<nat>>,
                          recs: Dict<string, seq<Rec>>, skills: Dict<string, string>)
    requires DistinctKeys(skills)
    ensures var data := SelectionData(reqs, titles, selected, recs, skills);
      && (forall role :: role in Keys(reqs) ==> HasKey(data, TitleKey(Prefix(role))))
      && (forall i :: 0 <= i < |skills| ==> Get(data, skills[i].0) == Some(skills[i].1))
      && (forall j :: 1 <= j <= SkillSlots ==> Get(data, SkillKey(j)) == Some(GetOr(skills, SkillKey(j), "")))
  {
    var roles := AllRoles(Keys(reqs), titles, selected, recs);
    var merged := Update(roles, skills);
    var data := FillSkills(merged, 1);
    forall role | role in Keys(reqs) ensures HasKey(data, TitleKey(Prefix(role))) {
      var k := TitleKey(Prefix(role));
      AllRolesTitles(Keys(reqs), titles, selected, recs, role);
      GetSpec(roles, k);
      UpdateSpec(roles, skills, k);
      GetSpec(skills, k);
      FillSkillsSpec(merged, 1, k);
      GetSpec(merged, k);
      GetSpec(data, k);
    }
    forall i | 0 <= i < |skills| ensures Get(data, skills[i].0) == Some(skills[i].1) {
      var k := skills[i].0;
      GetAt(skills, i);
      assert k in Keys(skills);
      UpdateSpec(roles, skills, k);
      FillSkillsSpec(merged, 1, k);
    }
    forall j | 1 <= j <= SkillSlots ensures Get(data, SkillKey(j)) == Some(GetOr(skills, SkillKey(j), "")) {
      var k := SkillKey(j);
      UpdateSpec(roles, skills, k);
      AllRolesNoSkill(Keys(reqs), titles, selected, recs, j);
      GetSpec(skills, k);
      FillSkillsSpec(merged, 1, k);
    }
  }

  /** A key the role loop wrote survives the skill merge and the skill filling when no selected skill uses it. */
  lemma SelectionDataKeeps(reqs: Dict<string, int>, titles: Dict<string, string>, selected: Dict<string, set<nat>>,
                           recs: Dict<string, seq<Rec>>, skills: Dict<string, string>, key: string)
    requires DistinctKeys(skills) && !HasKey(skills, key)
    requires Get(AllRoles(Keys(reqs), titles, selected, recs), key).Some?
    ensures Get(SelectionData(reqs, titles, selected, recs, skills), key) == Get(AllRoles(Keys(reqs), titles, selected, recs), key)
  {
    var roles := AllRoles(Keys(reqs), titles, selected, recs);
    UpdateSpec(roles, skills, key);
    FillSkillsSpec(Update(roles, skills), 1, key);
  }

  /** One key of the k-th role's prefix: the template data holds what that role wrote under it. */
  lemma SelectionDataRoleKey(reqs: Dict<string, int>, titles: Dict<string, string>, selected: Dict<string, set<nat>>,
                             recs: Dict<string, seq<Rec>>, skills: Dict<string, string>, k: nat, key: string)
    requires DistinctPrefixes(Keys(reqs)) && DistinctKeys(skills) && k < |reqs|
    requires forall j :: 0 <= j < |skills| ==> Foreign(Prefix(reqs[k].0), skills[j].0)
    requires key == TitleKey(Prefix(reqs[k].0)) || exists i :: key == BulletKey(Prefix(reqs[k].0), i)
    requires Get(RoleEntries(AllRoles(Keys(reqs)[..k], titles, selected, recs), reqs[k].0, titles, selected, recs), key).Some?
    ensures Get(SelectionData(reqs, titles, selected, recs, skills), key) ==
      Get(RoleEntries(AllRoles(Keys(reqs)[..k], titles, selected, recs), reqs[k].0, titles, selected, recs), key)
  {
    var roles := Keys(reqs);
    assert roles[k] == reqs[k].0;
    AllRolesKey(roles, titles, selected, recs, k, key);
    assert !HasKey(skills, key);
    SelectionDataKeeps(reqs, titles, selected, recs, skills, key);
  }

  /**
   * With distinct prefixes and no selected skill under one of its keys, a
   * required role's entries reach the template data as RoleEntriesSpec
   * describes: its title, the bullet at the i-th smallest selected index
   * under P_i, and "" in the slots after the last selected one.
   */
  lemma SelectionDataRole(reqs: Dict<string, int>, titles: Dict<string, string>, selected: Dict<string, set<nat>>,
                          recs: Dict<string, seq<Rec>>, skills: Dict<string, string>, k: nat)
    requires DistinctPrefixes(Keys(reqs)) && DistinctKeys(skills) && k < |reqs|
    requires forall j :: 0 <= j < |skills| ==> Foreign(Prefix(reqs[k].0), skills[j].0)
    ensures var data := SelectionData(reqs, titles, selected, recs, skills);
      var role := reqs[k].0;
      var p := Prefix(role);
      var sorted := SortedIndices(GetOr(selected, role, {}));
      var bullets := GetOr(recs, role, []);
      && Get(data, TitleKey(p)) == Some(Title(role, titles))
      && (forall i :: 1 <= i <= |sorted| && sorted[i - 1] < |bullets| ==> Get(data, BulletKey(p, i)) == Some(bullets[sorted[i - 1]].bullet))
      && (forall i :: |sorted| < i <= MaxBullets ==> Get(data, BulletKey(p, i)) == Some(""))
  {
    var role := reqs[k].0;
    var p := Prefix(role);
    var sorted := SortedIndices(GetOr(selected, role, {}));
    var bullets := GetOr(recs, role, []);
    var prior := AllRoles(Keys(reqs)[..k], titles, selected, recs);
    RoleEntriesSpec(prior, role, titles, selected, recs);
    SelectionDataRoleKey(reqs, titles, selected, recs, skills, k, TitleKey(p));
    forall i | 1 <= i <= |sorted| && sorted[i - 1] < |bullets|
      ensures Get(SelectionData(reqs, titles, selected, recs, skills), BulletKey(p, i)) == Some(bullets[sorted[i - 1]].bullet)
    {
      SelectionDataRoleKey(reqs, titles, selected, recs, skills, k, BulletKey(p, i));
    }
    forall i | |sorted| < i <= MaxBullets ensures Get(SelectionData(reqs, titles, selected, recs, skills), BulletKey(p, i)) == Some("") {
      SelectionDataRoleKey(reqs, titles, selected, recs, skills, k, BulletKey(p, i));
    }
  }

  // ---------------------------------------------------------------- the shared collection loop

  /** `for i, idx in enumerate(sorted_indices, start=1)`: the in-range indices' bullets. */
  method AddBullets(d: Dict<string, string>, p: string, sorted: seq<nat>, bullets: seq<Rec>) returns (data: Dict<string, string>)
    ensures data == FillBullets(d, p, sorted, bullets)
  {
    data := d;
    var i := 0;
    while i < |sorted|
      invariant 0 <= i <= |sorted|
      invariant data == FillBullets(d, p, sorted[..i], bullets)
    {
      FillBulletsAt(d, p, sorted, bullets, i);
      var bulletIdx := sorted[i];
      if bulletIdx < |bullets| {
        data := Put(data, BulletKey(p, i + 1), bullets[bulletIdx].bullet);
      }
      i := i + 1;
    }
    assert sorted[..i] == sorted;
  }

  /** `for i in range(len(sorted_indices) + 1, max_bullets + 1)`: the unused slots become "". */
  method ClearUnused(d: Dict<string, string>, p: string, start: nat) returns (data: Dict<string, string>)
    ensures data == ClearFrom(d, p, start)
  {
    data := d;
    var k := start;
    while k <= MaxBullets
      invariant ClearFrom(data, p, k) == ClearFrom(d, p, start)
      decreases MaxBullets + 1 - k
    {
      data := Put(data, BulletKey(p, k), "");
      k := k + 1;
    }
  }

  /** The loop body for one role. */
  method AddRole(d: Dict<string, string>, role: string, titles: Dict<string, string>,
                 selected: Dict<string, set<nat>>, recs: Dict<string, seq<Rec>>) returns (data: Dict<string, string>)
    ensures data == RoleEntries(d, role, titles, selected, recs)
  {
    var p := Prefix(role);
    var selectedIndices := GetOr(selected, role, {});
    var title := if role in TitledRoles && HasKey(titles, role) then Strip(GetOr(titles, role, "")) else "";
    data := Put(d, TitleKey(p), title);
    var sorted := SortIndices(selectedIndices);
    data := AddBullets(data, p, sorted, GetOr(recs, role, []));
    data := ClearUnused(data, p, |sorted| + 1);
  }

  /** `for skill_key, skill_value in selected_skills.items(): template_data[skill_key] = skill_value`. */
  method MergeSkills(d: Dict<string, string>, skills: Dict<string, string>) returns (data: Dict<string, string>)
    ensures data == Update(d, skills)
  {
    data := d;
    var j := 0;
    while j < |skills|
      invariant 0 <= j <= |skills|
      invariant Update(data, skills[j..]) == Update(d, skills)
    {
      assert skills[j..][1..] == skills[j + 1..];
      data := Put(data, skills[j].0, skills[j].1);
      j := j + 1;
    }
  }

  /** `for i in range(1, 5)`: a missing SKILL_i becomes "". */
  method FillMissingSkills(d: Dict<string, string>) returns (data: Dict<string, string>)
    ensures data == FillSkills(d, 1)
  {
    data := d;
    var s := 1;
    while s <= SkillSlots
      invariant 1 <= s <= SkillSlots + 1
      invariant FillSkills(data, s) == FillSkills(d, 1)
      decreases SkillSlots + 1 - s
    {
      var skillKey := SkillKey(s);
      if !HasKey(data, skillKey) {
        data := Put(data, skillKey, "");
      }
      s := s + 1;
    }
  }

  /** The whole of _collect_final_template_data. */
  method CollectFinalTemplateData(reqs: Dict<string, int>, titles: Dict<string, string>, selected: Dict<string, set<nat>>,
                                  recs: Dict<string, seq<Rec>>, skills: Dict<string, string>) returns (data: Dict<string, string>)
    ensures data == SelectionData(reqs, titles, selected, recs, skills)
  {
    data := [];
    var roles := Keys(reqs);
    var i := 0;
    while i < |roles|
      invariant 0 <= i <= |roles|
      invariant data == AllRoles(roles[..i], titles, selected, recs)
    {
      AllRolesAt(roles, titles, selected, recs, i);
      data := AddRole(data, roles[i], titles, selected, recs);
      i := i + 1;
    }
    assert roles[..i] == roles;
    data := MergeSkills(data, skills);
    data := FillMissingSkills(data);
  }
}
