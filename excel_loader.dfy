/**
 * The candidate workbook loader: a sheet is its column names and its rows,
 * each row a map from column name to cell. Reading the file is left to the
 * caller; the sheet arrives already read.
 */
module ExcelLoader {
  import opened Wrappers
  import opened Assoc
  import opened Text
  import Numeric

  /** A cell: empty (NaN), text, a whole number, or a float with the text Python prints for it. */
  datatype Cell = Missing | Str(s: string) | Whole(n: int) | Float(x: real, repr: string)

  type Row = map<string, Cell>

  datatype Sheet = Sheet(columns: seq<string>, rows: seq<Row>)

  /** Every row has a cell under every column. */
  predicate Rectangular(sheet: Sheet)
  {
    forall i, c :: 0 <= i < |sheet.rows| && c in sheet.columns ==> c in sheet.rows[i]
  }

  /** `df.empty`: no rows or no columns. */
  predicate IsEmpty(sheet: Sheet)
  {
    sheet.rows == [] || sheet.columns == []
  }

  // ---------------------------------------------------------------- cells

  /** `str(value)` of a cell that is not NaN. */
  function CellString(c: Cell): string
    requires !c.Missing?
  {
    match c
    case Str(s) => s
    case Whole(n) => IntToString(n)
    case Float(_, repr) => repr
  }

  /** `_safe_str`: the stripped text of the cell, "" for NaN. */
  function SafeStr(c: Cell): (r: string)
    ensures c.Missing? ==> r == ""
    ensures IsStripped(r)
  {
    StripFix(if c.Missing? then "" else CellString(c));
    if c.Missing? then "" else Strip(CellString(c))
  }

  predicate NotDigit(c: char) { !IsDigit(c) }

  /** The value of a string of decimal digits. */
  function DigitsValue(s: string): nat
    decreases |s|
  {
    if s == [] then 0
    else
      var d := s[|s| - 1] as int - '0' as int;
      DigitsValue(s[..|s| - 1]) * 10 + (if 0 <= d < 10 then d else 0)
  }

  /**
   * `int(float(s))` for a decimal numeral: optional sign, digits, an
   * optional "." and more digits, with at least one digit in all, around
   * optional whitespace. The numeral is read exactly, without rounding it
   * to a double first, so truncation toward zero gives its signed integer
   * part; `float()` agrees for integer parts up to 2^53 whose fraction does
   * not round up. Every other spelling is read as not a numeral (None),
   * including those `float()` also accepts ("1e3", "1_000", "inf", "nan").
   */
  function TruncatedNumeral(s: string): Option<int>
  {
    SignedPart(Strip(s))
  }

  /** An optional sign before an unsigned numeral. */
  function SignedPart(t: string): Option<int>
  {
    var signed := t != [] && (t[0] == '-' || t[0] == '+');
    match UnsignedPart(if signed then t[1..] else t)
    case Some(v) => Some(if signed && t[0] == '-' then -(v as int) else v as int)
    case None => None
  }

  /** The integer part of an unsigned numeral: digits, then nothing or "." and digits, with a digit somewhere. */
  function UnsignedPart(body: string): Option<nat>
  {
    var k := RunEnd(body, NotDigit);
    var rest := body[k..];
    var fraction := rest != [] && rest[0] == '.' && RunEnd(rest[1..], NotDigit) == |rest| - 1;
    if (rest == [] && k > 0) || (fraction && (k > 0 || |rest| > 1)) then Some(DigitsValue(body[..k]))
    else None
  }

  /** `_safe_int`: 0 for NaN or text that does not parse, the truncated value otherwise. */
  function SafeInt(c: Cell): int
  {
    match c
    case Missing => 0
    case Whole(n) => n
    case Float(x, _) => Numeric.Trunc(x)
    case Str(s) => TruncatedNumeral(s).GetOr(0)
  }

  lemma {:induction false} DigitsValueOfNat(n: nat)
    ensures DigitsValue(NatToString(n)) == n
    decreases n
  {
    var s := NatToString(n);
    if n >= 10 {
      DigitsValueOfNat(n / 10);
      assert s[..|s| - 1] == NatToString(n / 10);
    }
  }

  /** The digits of a printed natural number run to its end. */
  lemma DigitsRunToEnd(s: string)
    requires forall i :: 0 <= i < |s| ==> IsDigit(s[i])
    ensures RunEnd(s, NotDigit) == |s|
  {
    RunEndIs(s, NotDigit, |s|);
  }

  predicate AllDigits(s: string)
  {
    forall i :: 0 <= i < |s| ==> IsDigit(s[i])
  }

  /** A stripped numeral: an optional minus, digits, and either nothing or "." and digits. */
  lemma NumeralParts(t: string, neg: bool, digits: string, rest: string)
    requires t == (if neg then "-" else "") + digits + rest && IsStripped(t)
    requires digits != [] && AllDigits(digits)
    requires rest == [] || (rest[0] == '.' && AllDigits(rest[1..]))
    ensures TruncatedNumeral(t) == Some(if neg then -(DigitsValue(digits) as int) else DigitsValue(digits) as int)
  {
    StripFix(t);
    SignedParts(t, neg, digits, rest);
  }

  lemma SignedParts(t: string, neg: bool, digits: string, rest: string)
    requires t == (if neg then "-" else "") + digits + rest
    requires digits != [] && AllDigits(digits)
    requires rest == [] || (rest[0] == '.' && AllDigits(rest[1..]))
    ensures SignedPart(t) == Some(if neg then -(DigitsValue(digits) as int) else DigitsValue(digits) as int)
  {
    UnsignedParts(digits, rest);
    SignedCase(t, neg, digits + rest);
  }

  /** A leading minus negates the unsigned reading; text that starts with a digit reads as it. */
  lemma SignedCase(t: string, neg: bool, body: string)
    requires t == (if neg then "-" else "") + body
    requires body != [] && IsDigit(body[0])
    ensures SignedPart(t) == if UnsignedPart(body).Some? then Some(if neg then -(UnsignedPart(body).value as int) else UnsignedPart(body).value as int) else None
  {
    if neg {
      assert t[0] == '-' && t[1..] == body;
    } else {
      assert t == body;
    }
  }

  lemma UnsignedParts(digits: string, rest: string)
    requires digits != [] && AllDigits(digits)
    requires rest == [] || (rest[0] == '.' && AllDigits(rest[1..]))
    ensures UnsignedPart(digits + rest) == Some(DigitsValue(digits))
  {
    var body := digits + rest;
    assert rest != [] ==> body[|digits|] == '.';
    RunEndIs(body, NotDigit, |digits|);
    assert body[..|digits|] == digits && body[|digits|..] == rest;
    if rest != [] {
      RunEndIs(rest[1..], NotDigit, |rest| - 1);
    }
  }

  /** A minus or nothing, digits, and nothing or "." and digits: the text is stripped and reads as its signed digits. */
  lemma PrintedNumeral(neg: bool, digits: string, rest: string)
    requires digits != [] && AllDigits(digits)
    requires rest == [] || (|rest| >= 2 && rest[0] == '.' && AllDigits(rest[1..]))
    ensures SafeInt(Str((if neg then "-" else "") + digits + rest)) == if neg then -(DigitsValue(digits) as int) else DigitsValue(digits) as int
  {
    var t := (if neg then "-" else "") + digits + rest;
    assert IsStripped(t) by {
      assert t[0] == if neg then '-' else digits[0];
      assert t[|t| - 1] == if rest == [] then digits[|digits| - 1] else rest[1..][|rest| - 2];
    }
    NumeralParts(t, neg, digits, rest);
  }

  /** A printed integer reads back as itself: `int(float("-3"))` is -3. */
  lemma SafeIntWhole(n: int)
    ensures SafeInt(Str(IntToString(n))) == n
  {
    var m: nat := if n < 0 then -n else n;
    var d := NatToString(m);
    DigitsValueOfNat(m);
    assert IntToString(n) == (if n < 0 then "-" else "") + d + "";
    PrintedNumeral(n < 0, d, "");
  }

  /** Whitespace around a printed integer is ignored. */
  lemma SafeIntPadded(n: int)
    ensures SafeInt(Str(" " + IntToString(n) + " ")) == n
  {
    var a := IntToString(n);
    assert IsStripped(a) by {
      assert !IsSpace(a[0]) && !IsSpace(a[|a| - 1]);
    }
    StripTrailingSpace(a);
    StripFix(a + " ");
    StripPadded(" ", a);
    assert " " + a + " " == " " + (a + " ");
    assert Strip(" " + (a + " ")) == Strip(a + " ") by {
      StripLeadingSpace(a + " ");
    }
    SafeIntWhole(n);
  }

  /** A leading space is stripped away. */
  lemma StripLeadingSpace(s: string)
    ensures Strip(" " + s) == Strip(s)
  {
    var t := " " + s;
    assert t[1..] == s;
    assert SkipLeft(t, IsSpace) == 1 + SkipLeft(s, IsSpace);
    assert t[SkipLeft(t, IsSpace)..] == s[SkipLeft(s, IsSpace)..];
  }

  /** The fraction is cut off toward zero: `int(float("-3.7"))` is -3. */
  lemma SafeIntFraction(n: int, frac: nat)
    ensures SafeInt(Str(IntToString(n) + "." + NatToString(frac))) == n
  {
    var m: nat := if n < 0 then -n else n;
    var d := NatToString(m);
    DigitsValueOfNat(m);
    var rest := "." + NatToString(frac);
    assert rest[1..] == NatToString(frac);
    assert IntToString(n) + "." + NatToString(frac) == (if n < 0 then "-" else "") + d + rest;
    PrintedNumeral(n < 0, d, rest);
  }

  /** A single trailing space is stripped away from a stripped text. */
  lemma StripTrailingSpace(a: string)
    requires a != [] && IsStripped(a)
    ensures Strip(a + " ") == a
  {
    var s := a + " ";
    SkipLeftIs(s, IsSpace, 0);
    assert s[..|s| - 1] == a;
    assert SkipRight(s[..|s| - 1], IsSpace) == |a|;
  }

  /** Truncation keeps the sign and drops less than one. */
  lemma TruncateSpec(x: real)
    ensures x >= 0.0 ==> 0.0 <= Numeric.Trunc(x) as real <= x < Numeric.Trunc(x) as real + 1.0
    ensures x < 0.0 ==> Numeric.Trunc(x) as real - 1.0 < x <= Numeric.Trunc(x) as real <= 0.0
  {
  }

  /** Text that is not a numeral counts as 0. */
  lemma SafeIntText()
    ensures SafeInt(Str("n/a")) == 0 && SafeInt(Str("")) == 0 && SafeInt(Str(".")) == 0 && SafeInt(Missing) == 0
  {
    assert Strip("n/a") == "n/a" by { StripFix("n/a"); }
    assert RunEnd("n/a", NotDigit) == 0;
    assert Strip(".") == "." by { StripFix("."); }
    assert RunEnd(".", NotDigit) == 0;
    assert RunEnd(""[..0], NotDigit) == 0;
  }

  /** `_parse_keywords`: the comma-separated pieces, stripped, without empty ones; NaN gives none. */
  function ParseKeywords(c: Cell): seq<string>
  {
    if c.Missing? then [] else NonBlank(Split(CellString(c), ','))
  }

  /** Keywords written out with commas (and any spacing) read back unchanged. */
  lemma ParseKeywordsJoin(keywords: seq<string>)
    requires keywords != []
    requires forall i :: 0 <= i < |keywords| ==> keywords[i] != [] && IsStripped(keywords[i]) && ',' !in keywords[i]
    ensures ParseKeywords(Str(Join(keywords, ","))) == keywords
  {
    SplitJoin(keywords, ',');
    NonBlankStripped(keywords);
  }

  /** Stripped non-empty pieces pass through unchanged. */
  lemma {:induction false} NonBlankStripped(pieces: seq<string>)
    requires forall i :: 0 <= i < |pieces| ==> pieces[i] != [] && IsStripped(pieces[i])
    ensures NonBlank(pieces) == pieces
    decreases |pieces|
  {
    if pieces != [] {
      var init := pieces[..|pieces| - 1];
      NonBlankStripped(init);
      StripFix(pieces[|pieces| - 1]);
      assert pieces == init + [pieces[|pieces| - 1]];
    }
  }

  // ---------------------------------------------------------------- columns

  function Lowered(columns: seq<string>): (r: seq<string>)
    ensures |r| == |columns| && forall i :: 0 <= i < |columns| ==> r[i] == Lower(columns[i])
  {
    if columns == [] then [] else [Lower(columns[0])] + Lowered(columns[1..])
  }

  /** `_is_bullet_format`: a "role" column and a "bulletpoint", "bullet point" or "bullet" column, in any case. */
  predicate IsBulletFormat(columns: seq<string>)
  {
    var cols := Lowered(columns);
    "role" in cols && ("bulletpoint" in cols || "bullet point" in cols || "bullet" in cols)
  }

  /** `{c.lower(): c for c in df.columns}`: a later column wins a shared lower-case name. */
  function ColumnMap(columns: seq<string>): Dict<string, string>
    decreases |columns|
  {
    if columns == [] then []
    else
      var c := columns[|columns| - 1];
      Put(ColumnMap(columns[..|columns| - 1]), Lower(c), c)
  }

  /** A lower-case name is mapped exactly when some column has it, and to such a column. */
  lemma {:induction false} ColumnMapSpec(columns: seq<string>, key: string)
    ensures Get(ColumnMap(columns), key).Some? <==> key in Lowered(columns)
    ensures Get(ColumnMap(columns), key).Some? ==>
      Get(ColumnMap(columns), key).value in columns && Lower(Get(ColumnMap(columns), key).value) == key
    decreases |columns|
  {
    if columns != [] {
      var init := columns[..|columns| - 1];
      var c := columns[|columns| - 1];
      ColumnMapSpec(init, key);
      PutGet(ColumnMap(init), Lower(c), c, key);
      var lowered := Lowered(columns);
      assert lowered == Lowered(init) + [Lower(c)];
      if key == Lower(c) {
        assert lowered[|lowered| - 1] == key;
        assert columns[|columns| - 1] == c;
      } else {
        assert key in lowered <==> key in Lowered(init);
        assert forall x :: x in init ==> x in columns;
      }
    }
  }

  /** The column the role is read from. */
  function RoleColumn(columns: seq<string>): string
  {
    GetOr(ColumnMap(columns), "role", "Role")
  }

  /** The bullet column: "bulletpoint" before "bullet point" before "bullet". */
  function BulletColumn(columns: seq<string>): string
  {
    var m := ColumnMap(columns);
    if Get(m, "bulletpoint").Some? then Get(m, "bulletpoint").value
    else if Get(m, "bullet point").Some? then Get(m, "bullet point").value
    else GetOr(m, "bullet", "BulletPoint")
  }

  /** In bullet format the role and bullet columns are columns of the sheet, so every row has them. */
  lemma BulletColumnsPresent(columns: seq<string>)
    requires IsBulletFormat(columns)
    ensures RoleColumn(columns) in columns && Lower(RoleColumn(columns)) == "role"
    ensures BulletColumn(columns) in columns
    ensures Lower(BulletColumn(columns)) in ["bulletpoint", "bullet point", "bullet"]
  {
    ColumnMapSpec(columns, "role");
    ColumnMapSpec(columns, "bulletpoint");
    ColumnMapSpec(columns, "bullet point");
    ColumnMapSpec(columns, "bullet");
  }

  // ---------------------------------------------------------------- bullet format

  /** One bullet row as the loader stores it. */
  datatype BulletEntry = BulletEntry(role: string, bullet: string, category: Option<string>, keywords: seq<string>, lines: Option<int>)

  /** The optional columns, each looked up by its lower-case name. */
  function EntryOf(row: Row, columns: seq<string>): BulletEntry
    requires IsBulletFormat(columns) && forall c :: c in columns ==> c in row
  {
    BulletColumnsPresent(columns);
    var m := ColumnMap(columns);
    ColumnMapSpec(columns, "category");
    ColumnMapSpec(columns, "keywords");
    ColumnMapSpec(columns, "lines");
    var category := Get(m, "category");
    var keywords := Get(m, "keywords");
    var lines := Get(m, "lines");
    BulletEntry(
      SafeStr(row[RoleColumn(columns)]),
      SafeStr(row[BulletColumn(columns)]),
      if category.Some? then Some(SafeStr(row[category.value])) else None,
      if keywords.Some? then ParseKeywords(row[keywords.value]) else [],
      if lines.Some? then Some(SafeInt(row[lines.value])) else None)
  }

  /** A row is kept when neither its role nor its bullet is blank. */
  predicate Kept(e: BulletEntry)
  {
    e.role != "" && e.bullet != ""
  }

  /** Every row's entry, in row order. */
  function Entries(sheet: Sheet): (r: seq<BulletEntry>)
    requires IsBulletFormat(sheet.columns) && Rectangular(sheet)
    ensures |r| == |sheet.rows| && forall i :: 0 <= i < |r| ==> r[i] == EntryOf(sheet.rows[i], sheet.columns)
    decreases |sheet.rows|
  {
    if sheet.rows == [] then []
    else [EntryOf(sheet.rows[0], sheet.columns)] + Entries(Sheet(sheet.columns, sheet.rows[1..]))
  }

  /** `bullets_by_role.setdefault(role, []).append(entry)` for a kept entry. */
  function AddEntry(d: Dict<string, seq<BulletEntry>>, e: BulletEntry): Dict<string, seq<BulletEntry>>
  {
    if Kept(e) then Put(d, e.role, GetOr(d, e.role, []) + [e]) else d
  }

  /** The grouping of a list of entries. */
  function GroupEntries(es: seq<BulletEntry>): Dict<string, seq<BulletEntry>>
    decreases |es|
  {
    if es == [] then [] else AddEntry(GroupEntries(es[..|es| - 1]), es[|es| - 1])
  }

  /** `_parse_bullet_format`'s result. */
  function Grouped(sheet: Sheet): Dict<string, seq<BulletEntry>>
    requires IsBulletFormat(sheet.columns) && Rectangular(sheet)
  {
    GroupEntries(Entries(sheet))
  }

  /** The kept entries of one role, in order. */
  function RoleRows(es: seq<BulletEntry>, role: string): (r: seq<BulletEntry>)
    ensures forall i :: 0 <= i < |r| ==> r[i].role == role && Kept(r[i]) && r[i] in es
    decreases |es|
  {
    if es == [] then []
    else
      var e := es[|es| - 1];
      RoleRows(es[..|es| - 1], role) + (if Kept(e) && e.role == role then [e] else [])
  }

  /**
   * A role's group is exactly its kept rows in row order, every entry's
   * role is the group key, and a role without kept rows has no group.
   */
  lemma {:induction false} GroupedSpec(es: seq<BulletEntry>, role: string)
    ensures Get(GroupEntries(es), role) == if RoleRows(es, role) == [] then None else Some(RoleRows(es, role))
    decreases |es|
  {
    if es != [] {
      var init := es[..|es| - 1];
      var e := es[|es| - 1];
      GroupedSpec(init, role);
      var prev := GroupEntries(init);
      if Kept(e) {
        PutGet(prev, e.role, GetOr(prev, e.role, []) + [e], role);
        if e.role == role {
          assert GetOr(prev, role, []) == RoleRows(init, role);
          assert RoleRows(es, role) == RoleRows(init, role) + [e];
        } else {
          assert RoleRows(es, role) == RoleRows(init, role);
        }
      } else {
        assert RoleRows(es, role) == RoleRows(init, role);
      }
    }
  }

  /** `_parse_bullet_format`: the rows in order, each kept row appended to its role's list. */
  method ParseBulletFormat(sheet: Sheet) returns (byRole: Dict<string, seq<BulletEntry>>)
    requires IsBulletFormat(sheet.columns) && Rectangular(sheet)
    ensures byRole == Grouped(sheet)
  {
    byRole := GroupRows(Entries(sheet));
  }

  /** The loop over the entries: `bullets_by_role.setdefault(role, []).append(entry)` for each kept one. */
  method GroupRows(entries: seq<BulletEntry>) returns (byRole: Dict<string, seq<BulletEntry>>)
    ensures byRole == GroupEntries(entries)
  {
    byRole := [];
    var i := 0;
    while i < |entries|
      invariant 0 <= i <= |entries|
      invariant byRole == GroupEntries(entries[..i])
    {
      var entry := entries[i];
      assert entries[..i + 1][..i] == entries[..i];
      if entry.role != "" && entry.bullet != "" {
        var group := GetOr(byRole, entry.role, []);
        byRole := Put(byRole, entry.role, group + [entry]);
      }
      i := i + 1;
    }
    assert entries[..|entries|] == entries;
  }

  /** What `load_candidate_sheet` returns for a sheet that has been read. */
  datatype Candidate = NoData | Bullets(byRole: Dict<string, seq<BulletEntry>>) | FirstRow(cells: Dict<string, Cell>)

  /** The first row's cells under their columns. */
  function FirstRowCells(columns: seq<string>, row: Row): Dict<string, Cell>
    requires forall c :: c in columns ==> c in row
    decreases |columns|
  {
    if columns == [] then []
    else
      var c := columns[|columns| - 1];
      Put(FirstRowCells(columns[..|columns| - 1], row), c, row[c])
  }

  /** `load_candidate_sheet` after the read: nothing for an empty sheet, else the bullet groups or the first row. */
  function LoadCandidateSheet(sheet: Sheet): (r: Candidate)
    requires Rectangular(sheet)
    ensures IsEmpty(sheet) <==> r.NoData?
    ensures r.Bullets? <==> !IsEmpty(sheet) && IsBulletFormat(sheet.columns)
  {
    if IsEmpty(sheet) then NoData
    else if IsBulletFormat(sheet.columns) then Bullets(Grouped(sheet))
    else FirstRow(FirstRowCells(sheet.columns, sheet.rows[0]))
  }

  // ---------------------------------------------------------------- skills sheet

  /** `row.get(name, "")`. */
  function CellOr(row: Row, name: string): Cell
  {
    if name in row then row[name] else Str("")
  }

  /** A skills row as the loader reads it: the stripped skill, the stripped category text and its categories. */
  datatype SkillRow = SkillRow(skill: string, categoriesText: string, categories: seq<string>)

  /** The categories are the comma-separated pieces of the category text, stripped, without empty ones. */
  function SkillRowOf(row: Row): SkillRow
  {
    var categoriesText := SafeStr(CellOr(row, "Category"));
    SkillRow(SafeStr(CellOr(row, "Skill")), categoriesText, NonBlank(Split(categoriesText, ',')))
  }

  function SkillRows(rows: seq<Row>): (r: seq<SkillRow>)
    ensures |r| == |rows| && forall i :: 0 <= i < |r| ==> r[i] == SkillRowOf(rows[i])
  {
    if rows == [] then [] else [SkillRowOf(rows[0])] + SkillRows(rows[1..])
  }

  /** A skills row counts when both its skill and its category text are non-blank. */
  predicate SkillRowKept(r: SkillRow)
  {
    r.skill != "" && r.categoriesText != ""
  }

  /** `load_skills_sheet`'s map: each kept row assigns its categories to its skill. */
  function SkillsMap(rs: seq<SkillRow>): Dict<string, seq<string>>
    decreases |rs|
  {
    if rs == [] then []
    else
      var r := rs[|rs| - 1];
      var prev := SkillsMap(rs[..|rs| - 1]);
      if SkillRowKept(r) then Put(prev, r.skill, r.categories) else prev
  }

  /** A skill that no kept row names is absent. */
  lemma {:induction false} SkillsMapAbsent(rs: seq<SkillRow>, skill: string)
    requires forall j :: 0 <= j < |rs| && SkillRowKept(rs[j]) ==> rs[j].skill != skill
    ensures Get(SkillsMap(rs), skill) == None
    decreases |rs|
  {
    if rs != [] {
      var init := rs[..|rs| - 1];
      assert forall j :: 0 <= j < |init| ==> init[j] == rs[j];
      SkillsMapAbsent(init, skill);
      var r := rs[|rs| - 1];
      if SkillRowKept(r) {
        PutGet(SkillsMap(init), r.skill, r.categories, skill);
      }
    }
  }

  /** The last kept row naming a skill decides its categories: a later row replaces an earlier one. */
  lemma {:induction false} SkillsMapLast(rs: seq<SkillRow>, j: nat)
    requires j < |rs| && SkillRowKept(rs[j])
    requires forall k :: j < k < |rs| && SkillRowKept(rs[k]) ==> rs[k].skill != rs[j].skill
    ensures Get(SkillsMap(rs), rs[j].skill) == Some(rs[j].categories)
    decreases |rs|
  {
    var n := |rs| - 1;
    var init := rs[..n];
    var r := rs[n];
    if j < n {
      assert init[j] == rs[j];
      assert forall k :: j < k < |init| ==> init[k] == rs[k];
      SkillsMapLast(init, j);
      if SkillRowKept(r) {
        PutGet(SkillsMap(init), r.skill, r.categories, rs[j].skill);
      }
    } else {
      PutGet(SkillsMap(init), r.skill, r.categories, r.skill);
    }
  }

  /** Every stored category is stripped and non-empty. */
  lemma {:induction false} SkillsMapCategories(rows: seq<Row>, skill: string)
    ensures Get(SkillsMap(SkillRows(rows)), skill).Some? ==>
      var cats := Get(SkillsMap(SkillRows(rows)), skill).value;
      forall i :: 0 <= i < |cats| ==> cats[i] != [] && IsStripped(cats[i])
  {
    var rs := SkillRows(rows);
    GetSpec(SkillsMap(rs), skill);
    if Get(SkillsMap(rs), skill).Some? {
      var cats := Get(SkillsMap(rs), skill).value;
      SkillsMapFrom(rs, skill);
      var j :| 0 <= j < |rs| && rs[j].categories == cats;
      NonBlankSpec(Split(rs[j].categoriesText, ','));
    }
  }

  /** A stored category list is some row's. */
  lemma {:induction false} SkillsMapFrom(rs: seq<SkillRow>, skill: string)
    ensures Get(SkillsMap(rs), skill).Some? ==> exists j :: 0 <= j < |rs| && rs[j].categories == Get(SkillsMap(rs), skill).value
    decreases |rs|
  {
    if rs != [] {
      var init := rs[..|rs| - 1];
      var r := rs[|rs| - 1];
      SkillsMapFrom(init, skill);
      if SkillRowKept(r) {
        PutGet(SkillsMap(init), r.skill, r.categories, skill);
      }
      if Get(SkillsMap(init), skill).Some? {
        var j :| 0 <= j < |init| && init[j].categories == Get(SkillsMap(init), skill).value;
        assert rs[j] == init[j];
      }
    }
  }

  lemma SkillsMapAt(rs: seq<SkillRow>, i: nat)
    requires i < |rs|
    ensures SkillsMap(rs[..i + 1]) ==
      if SkillRowKept(rs[i]) then Put(SkillsMap(rs[..i]), rs[i].skill, rs[i].categories) else SkillsMap(rs[..i])
  {
    assert rs[..i + 1][..i] == rs[..i];
  }

  /** `load_skills_sheet` after the read: {} for an empty sheet, else the rows assigned in order. */
  method LoadSkillsSheet(sheet: Sheet) returns (skillsToCategories: Dict<string, seq<string>>)
    ensures skillsToCategories == if IsEmpty(sheet) then [] else SkillsMap(SkillRows(sheet.rows))
  {
    if sheet.rows == [] || sheet.columns == [] {
      return [];
    }
    skillsToCategories := AssignSkills(SkillRows(sheet.rows));
  }

  /** The loop over the rows: each kept row assigns its categories to its skill. */
  method AssignSkills(rs: seq<SkillRow>) returns (skillsToCategories: Dict<string, seq<string>>)
    ensures skillsToCategories == SkillsMap(rs)
  {
    skillsToCategories := [];
    var i := 0;
    while i < |rs|
      invariant 0 <= i <= |rs|
      invariant skillsToCategories == SkillsMap(rs[..i])
    {
      var r := rs[i];
      SkillsMapAt(rs, i);
      if r.skill != "" && r.categoriesText != "" {
        skillsToCategories := Put(skillsToCategories, r.skill, r.categories);
      }
      i := i + 1;
    }
    assert rs[..|rs|] == rs;
  }

  /** An empty sheet gives no skills and no candidate data. */
  lemma EmptySheet(sheet: Sheet)
    requires IsEmpty(sheet) && Rectangular(sheet)
    ensures LoadCandidateSheet(sheet) == NoData
    ensures sheet.rows == [] ==> SkillsMap(SkillRows(sheet.rows)) == []
  {
  }
}
