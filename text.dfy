/**
 * The pieces of Python's `str` API that the application uses, on `seq<char>`.
 * Character classes are the ASCII ones: whitespace is what `str.isspace`
 * accepts below code point 128, a word character is what the regular
 * expression class `\w` accepts below 128, and case mapping is ASCII only.
 */
module Text {

  // ---------------------------------------------------------------- characters

  /** str.isspace on ASCII: tab, newline, vertical tab, form feed, carriage return, 0x1C-0x1F and space. */
  predicate IsSpace(c: char)
  {
    c == ' ' || (9 <= c as int <= 13) || (28 <= c as int <= 31)
  }

  predicate IsAsciiUpper(c: char) { 'A' <= c <= 'Z' }
  predicate IsAsciiLower(c: char) { 'a' <= c <= 'z' }
  predicate IsDigit(c: char) { '0' <= c <= '9' }

  /** The regular-expression class `\w`: letters, digits and the underscore. */
  predicate IsWordChar(c: char)
  {
    IsAsciiUpper(c) || IsAsciiLower(c) || IsDigit(c) || c == '_'
  }

  function LowerChar(c: char): (r: char)
    ensures !IsAsciiUpper(r)
    ensures IsSpace(r) <==> IsSpace(c)
    ensures IsWordChar(r) <==> IsWordChar(c)
    ensures !IsAsciiUpper(c) ==> r == c
  {
    if IsAsciiUpper(c) then (c as int + 32) as char else c
  }

  function UpperChar(c: char): (r: char)
    ensures !IsAsciiLower(r)
    ensures !IsAsciiLower(c) ==> r == c
  {
    if IsAsciiLower(c) then (c as int - 32) as char else c
  }

  // ---------------------------------------------------------------- case

  /** str.lower(), ASCII letters only. */
  function Lower(s: string): (r: string)
    ensures |r| == |s|
    ensures forall i :: 0 <= i < |s| ==> r[i] == LowerChar(s[i])
  {
    seq(|s|, i requires 0 <= i < |s| => LowerChar(s[i]))
  }

  /** str.upper(), ASCII letters only. */
  function Upper(s: string): (r: string)
    ensures |r| == |s|
    ensures forall i :: 0 <= i < |s| ==> r[i] == UpperChar(s[i])
  {
    seq(|s|, i requires 0 <= i < |s| => UpperChar(s[i]))
  }

  lemma LowerIdempotent(s: string)
    ensures Lower(Lower(s)) == Lower(s)
  {
  }

  lemma LowerConcat(a: string, b: string)
    ensures Lower(a + b) == Lower(a) + Lower(b)
  {
    assert forall i :: 0 <= i < |a + b| ==> Lower(a + b)[i] == (Lower(a) + Lower(b))[i];
  }

  // ---------------------------------------------------------------- substrings

  /** `pat` occurs in `s` starting at index `i`. */
  predicate OccursAt(s: string, pat: string, i: int)
  {
    0 <= i && i + |pat| <= |s| && s[i..i + |pat|] == pat
  }

  /** Python's `pat in s`, searched from the left. */
  predicate Contains(s: string, pat: string)
    decreases |s|
  {
    if |pat| > |s| then false
    else if pat <= s then true
    else Contains(s[1..], pat)
  }

  lemma {:induction false} ContainsIff(s: string, pat: string)
    ensures Contains(s, pat) <==> exists i :: OccursAt(s, pat, i)
    decreases |s|
  {
    if |pat| > |s| {
    } else if pat <= s {
      assert OccursAt(s, pat, 0);
    } else {
      ContainsIff(s[1..], pat);
      if Contains(s[1..], pat) {
        var i :| OccursAt(s[1..], pat, i);
        assert s[i + 1..i + 1 + |pat|] == s[1..][i..i + |pat|];
        assert OccursAt(s, pat, i + 1);
      }
      if exists i :: OccursAt(s, pat, i) {
        var i :| OccursAt(s, pat, i);
        assert s[1..][i - 1..i - 1 + |pat|] == s[i..i + |pat|];
        assert OccursAt(s[1..], pat, i - 1);
      }
    }
  }

  lemma ContainsAt(s: string, pat: string, i: int)
    requires OccursAt(s, pat, i)
    ensures Contains(s, pat)
  {
    ContainsIff(s, pat);
  }

  /** Every string contains itself. */
  lemma ContainsSelf(s: string)
    ensures Contains(s, s)
  {
    assert OccursAt(s, s, 0);
    ContainsAt(s, s, 0);
  }

  /** A substring of a lower-cased text is found again in the larger lower-cased text around it. */
  lemma ContainsInConcat(a: string, s: string, b: string, pat: string)
    requires Contains(s, pat)
    ensures Contains(a + s + b, pat)
  {
    ContainsIff(s, pat);
    var i :| OccursAt(s, pat, i);
    assert (a + s + b)[|a| + i..|a| + i + |pat|] == s[i..i + |pat|];
    ContainsAt(a + s + b, pat, |a| + i);
  }

  // ---------------------------------------------------------------- replace

  /**
   * str.replace(pat, rep): every non-overlapping occurrence, scanned from the
   * left, is replaced; an empty pattern inserts `rep` around every character.
   */
  function Replace(s: string, pat: string, rep: string): string
    decreases |s|
  {
    if |pat| == 0 then
      if s == [] then rep else rep + [s[0]] + Replace(s[1..], pat, rep)
    else if |s| < |pat| then s
    else if pat <= s then rep + Replace(s[|pat|..], pat, rep)
    else [s[0]] + Replace(s[1..], pat, rep)
  }

  /** Replacing a (non-empty) pattern that does not occur leaves the text alone. */
  lemma {:induction false} ReplaceAbsent(s: string, pat: string, rep: string)
    requires |pat| > 0 && !Contains(s, pat)
    ensures Replace(s, pat, rep) == s
    decreases |s|
  {
    if |s| >= |pat| {
      ReplaceAbsent(s[1..], pat, rep);
    }
  }

  /** Replacing a pattern by itself leaves the text alone. */
  lemma {:induction false} ReplaceSelf(s: string, pat: string)
    requires |pat| > 0
    ensures Replace(s, pat, pat) == s
    decreases |s|
  {
    if |s| < |pat| {
    } else if pat <= s {
      ReplaceSelf(s[|pat|..], pat);
      assert s == pat + s[|pat|..];
    } else {
      ReplaceSelf(s[1..], pat);
    }
  }

  /** A replacement that changes the text only happens when the pattern occurs. */
  lemma ReplaceChangesOnlyIfPresent(s: string, pat: string, rep: string)
    requires |pat| > 0 && Replace(s, pat, rep) != s
    ensures Contains(s, pat)
  {
    if !Contains(s, pat) { ReplaceAbsent(s, pat, rep); }
  }

  // ---------------------------------------------------------------- strip

  /** Index of the first character that `drop` does not accept, or |s|. */
  function SkipLeft(s: string, drop: char -> bool): (k: nat)
    ensures k <= |s|
    ensures forall i :: 0 <= i < k ==> drop(s[i])
    ensures k < |s| ==> !drop(s[k])
  {
    if s == [] || !drop(s[0]) then 0 else 1 + SkipLeft(s[1..], drop)
  }

  /** The first index `drop` rejects is determined by the characters before it and at it. */
  lemma {:induction false} SkipLeftIs(s: string, drop: char -> bool, k: nat)
    requires k <= |s|
    requires forall i :: 0 <= i < k ==> drop(s[i])
    requires k < |s| ==> !drop(s[k])
    ensures SkipLeft(s, drop) == k
    decreases k
  {
    if k > 0 {
      SkipLeftIs(s[1..], drop, k - 1);
    }
  }

  /** The length of the leading run of characters that `sep` rejects. */
  function RunEnd(s: string, sep: char -> bool): (k: nat)
    ensures k <= |s|
    ensures forall i :: 0 <= i < k ==> !sep(s[i])
    ensures k < |s| ==> sep(s[k])
  {
    if s == [] || sep(s[0]) then 0 else 1 + RunEnd(s[1..], sep)
  }

  /** The end of the leading run is determined by the characters before it and at it. */
  lemma {:induction false} RunEndIs(s: string, sep: char -> bool, k: nat)
    requires k <= |s|
    requires forall i :: 0 <= i < k ==> !sep(s[i])
    requires k < |s| ==> sep(s[k])
    ensures RunEnd(s, sep) == k
    decreases k
  {
    if k > 0 {
      RunEndIs(s[1..], sep, k - 1);
    }
  }

  /** One past the index of the last character that `drop` does not accept, or 0. */
  function SkipRight(s: string, drop: char -> bool): (k: nat)
    ensures k <= |s|
    ensures forall i :: k <= i < |s| ==> drop(s[i])
    ensures k > 0 ==> !drop(s[k - 1])
  {
    if s == [] || !drop(s[|s| - 1]) then |s| else SkipRight(s[..|s| - 1], drop)
  }

  /** str.strip(chars) with the characters given as a predicate. */
  function Trim(s: string, drop: char -> bool): (r: string)
    ensures |r| <= |s|
    ensures r == [] || (!drop(r[0]) && !drop(r[|r| - 1]))
  {
    var t := s[SkipLeft(s, drop)..];
    t[..SkipRight(t, drop)]
  }

  /** str.strip() with no argument: surrounding whitespace. */
  function Strip(s: string): string
  {
    Trim(s, IsSpace)
  }

  /** A string has no leading or trailing whitespace. */
  predicate IsStripped(s: string)
  {
    s == [] || (!IsSpace(s[0]) && !IsSpace(s[|s| - 1]))
  }

  /** Stripping is the identity exactly on stripped strings. */
  lemma StripFix(s: string)
    ensures Strip(s) == s <==> IsStripped(s)
    ensures IsStripped(Strip(s))
  {
    if IsStripped(s) && s != [] {
      SkipLeftIs(s, IsSpace, 0);
    }
  }

  /** Whether `s` is blank in Python's sense: `not s.strip()`. */
  predicate IsBlank(s: string)
  {
    Strip(s) == []
  }

  lemma BlankIff(s: string)
    ensures IsBlank(s) <==> forall i :: 0 <= i < |s| ==> IsSpace(s[i])
  {
    var a := SkipLeft(s, IsSpace);
    if a < |s| {
      var t := s[a..];
      assert !IsSpace(t[0]);
      assert SkipRight(t, IsSpace) > 0;
    }
  }

  /** Stripping a character-and-whitespace sandwich around a stripped string gives it back. */
  lemma StripPadded(pad: string, x: string)
    requires forall i :: 0 <= i < |pad| ==> IsSpace(pad[i])
    requires IsStripped(x)
    ensures Strip(pad + x) == x
  {
    var s := pad + x;
    if x == [] {
      BlankIff(s);
    } else {
      assert s[|pad|] == x[0];
      SkipLeftIs(s, IsSpace, |pad|);
      assert s[|pad|..] == x;
      StripFix(x);
    }
  }

  // ---------------------------------------------------------------- split and join

  /** str.split(c) for a one-character separator: always at least one piece. */
  function Split(s: string, c: char): (r: seq<string>)
    ensures |r| >= 1
    ensures forall i :: 0 <= i < |r| ==> c !in r[i]
    decreases |s|
  {
    if s == [] then [""]
    else
      var rest := Split(s[1..], c);
      if s[0] == c then [""] + rest
      else [[s[0]] + rest[0]] + rest[1..]
  }

  /** sep.join(parts). */
  function Join(parts: seq<string>, sep: string): string
    decreases |parts|
  {
    if parts == [] then ""
    else if |parts| == 1 then parts[0]
    else parts[0] + sep + Join(parts[1..], sep)
  }

  lemma {:induction false} SplitPrefix(p: string, s: string, c: char)
    requires c !in p
    ensures Split(p + [c] + s, c) == [p] + Split(s, c)
    decreases |p|
  {
    if p == [] {
      assert p + [c] + s == [c] + s;
      assert ([c] + s)[1..] == s;
    } else {
      SplitPrefix(p[1..], s, c);
      assert (p + [c] + s)[1..] == p[1..] + [c] + s;
      assert [p[0]] + p[1..] == p;
    }
  }

  lemma {:induction false} SplitNoSep(p: string, c: char)
    requires c !in p
    ensures Split(p, c) == [p]
    decreases |p|
  {
    if p != [] {
      SplitNoSep(p[1..], c);
      assert [p[0]] + p[1..] == p;
    }
  }

  /** Splitting the join of separator-free pieces gives the pieces back. */
  lemma {:induction false} SplitJoin(parts: seq<string>, c: char)
    requires |parts| >= 1
    requires forall i :: 0 <= i < |parts| ==> c !in parts[i]
    ensures Split(Join(parts, [c]), c) == parts
    decreases |parts|
  {
    if |parts| == 1 {
      SplitNoSep(parts[0], c);
    } else {
      SplitJoin(parts[1..], c);
      SplitPrefix(parts[0], Join(parts[1..], [c]), c);
      assert parts == [parts[0]] + parts[1..];
    }
  }

  /** Joining with a longer separator `[c] + tail` and splitting on `c` leaves `tail` glued to each later piece. */
  lemma {:induction false} SplitJoinWide(parts: seq<string>, c: char, tail: string)
    requires |parts| >= 1
    requires c !in tail
    requires forall i :: 0 <= i < |parts| ==> c !in parts[i]
    ensures |Split(Join(parts, [c] + tail), c)| == |parts|
    ensures Split(Join(parts, [c] + tail), c)[0] == parts[0]
    ensures forall i :: 1 <= i < |parts| ==> Split(Join(parts, [c] + tail), c)[i] == tail + parts[i]
    decreases |parts|
  {
    if |parts| == 1 {
      SplitNoSep(parts[0], c);
    } else {
      var restJoin := Join(parts[1..], [c] + tail);
      assert Join(parts, [c] + tail) == parts[0] + [c] + (tail + restJoin);
      SplitPrefix(parts[0], tail + restJoin, c);
      SplitJoinWide(parts[1..], c, tail);
      SplitGlue(tail, restJoin, c);
    }
  }

  /** A separator-free prefix glues onto the first piece. */
  lemma {:induction false} SplitGlue(t: string, s: string, c: char)
    requires c !in t
    ensures Split(t + s, c) == [t + Split(s, c)[0]] + Split(s, c)[1..]
    decreases |t|
  {
    if t == [] {
      assert t + s == s;
      assert t + Split(s, c)[0] == Split(s, c)[0];
      assert [Split(s, c)[0]] + Split(s, c)[1..] == Split(s, c);
    } else {
      SplitGlue(t[1..], s, c);
      assert (t + s)[1..] == t[1..] + s;
      assert [t[0]] + (t[1..] + Split(s, c)[0]) == t + Split(s, c)[0];
    }
  }

  /** `[p.strip() for p in pieces if p.strip()]`: the stripped pieces that are not empty, in order. */
  function NonBlank(pieces: seq<string>): (r: seq<string>)
    ensures |r| <= |pieces|
    decreases |pieces|
  {
    if pieces == [] then []
    else
      var prev := NonBlank(pieces[..|pieces| - 1]);
      var line := Strip(pieces[|pieces| - 1]);
      if line != [] then prev + [line] else prev
  }

  /** Every kept piece is stripped, non-empty and the stripped form of a piece, and every piece that is not blank is kept. */
  lemma {:induction false} NonBlankSpec(pieces: seq<string>)
    ensures forall i :: 0 <= i < |NonBlank(pieces)| ==>
      NonBlank(pieces)[i] != [] && IsStripped(NonBlank(pieces)[i]) && exists j :: 0 <= j < |pieces| && Strip(pieces[j]) == NonBlank(pieces)[i]
    ensures forall j :: 0 <= j < |pieces| && Strip(pieces[j]) != [] ==> Strip(pieces[j]) in NonBlank(pieces)
    decreases |pieces|
  {
    if pieces != [] {
      var init := pieces[..|pieces| - 1];
      NonBlankSpec(init);
      assert forall j :: 0 <= j < |init| ==> init[j] == pieces[j];
      StripFix(pieces[|pieces| - 1]);
    }
  }

  // ---------------------------------------------------------------- whitespace words

  /** str.split() with no argument: the maximal runs of non-whitespace characters. */
  function Words(s: string): (r: seq<string>)
    ensures forall i :: 0 <= i < |r| ==> r[i] != [] && forall j :: 0 <= j < |r[i]| ==> !IsSpace(r[i][j])
    decreases |s|
  {
    var a := SkipLeft(s, IsSpace);
    if a == |s| then []
    else
      var t := s[a..];
      var k := RunEnd(t, IsSpace);
      [t[..k]] + Words(t[k..])
  }

  /** A word of `Words` has no whitespace. */
  predicate IsWord(w: string)
  {
    w != [] && forall j :: 0 <= j < |w| ==> !IsSpace(w[j])
  }

  lemma {:induction false} WordsJoin(ws: seq<string>)
    requires forall i :: 0 <= i < |ws| ==> IsWord(ws[i])
    ensures Words(Join(ws, " ")) == ws
    decreases |ws|
  {
    if |ws| == 1 {
      WordsCons(ws[0], "");
      assert ws[0] + "" == ws[0] == Join(ws, " ");
      assert ws == [ws[0]];
    } else if |ws| > 1 {
      var j := Join(ws[1..], " ");
      assert Join(ws, " ") == ws[0] + (" " + j);
      WordsJoin(ws[1..]);
      WordsJoinStep(ws[0], j, ws[1..]);
      assert ws == [ws[0]] + ws[1..];
    }
  }

  /** A word, a space and a text whose words are known. */
  lemma WordsJoinStep(w: string, j: string, rest: seq<string>)
    requires IsWord(w) && Words(j) == rest
    ensures Words(w + (" " + j)) == [w] + rest
  {
    WordsCons(w, " " + j);
    WordsLeadingSpace(" ", j);
  }

  /** A word followed by nothing or by whitespace is the first word. */
  lemma WordsCons(w: string, rest: string)
    requires IsWord(w) && (rest == "" || IsSpace(rest[0]))
    ensures Words(w + rest) == [w] + Words(rest)
  {
    var s := w + rest;
    assert s[0] == w[0];
    SkipLeftIs(s, IsSpace, 0);
    assert forall i :: 0 <= i < |w| ==> s[i] == w[i];
    assert |w| < |s| ==> s[|w|] == rest[0];
    RunEndIs(s, IsSpace, |w|);
    assert s[..|w|] == w;
    assert s[|w|..] == rest;
  }

  /** Leading whitespace does not change the words. */
  lemma WordsLeadingSpace(pad: string, s: string)
    requires forall i :: 0 <= i < |pad| ==> IsSpace(pad[i])
    ensures Words(pad + s) == Words(s)
  {
    var t := pad + s;
    var a := SkipLeft(t, IsSpace);
    var b := SkipLeft(s, IsSpace);
    assert forall i :: |pad| <= i < |t| ==> t[i] == s[i - |pad|];
    SkipLeftIs(t, IsSpace, |pad| + b);
    assert t[a..] == s[b..];
  }

  /** Joining whitespace-split words with single spaces. */
  lemma WordsAreWords(s: string)
    ensures forall i :: 0 <= i < |Words(s)| ==> IsWord(Words(s)[i])
  {
  }

  // ---------------------------------------------------------------- tokens

  /** The maximal runs of characters that `sep` rejects, left to right (re.findall of a run class). */
  function Runs(s: string, sep: char -> bool): (r: seq<string>)
    ensures forall i :: 0 <= i < |r| ==> r[i] != [] && forall j :: 0 <= j < |r[i]| ==> !sep(r[i][j])
    decreases |s|
  {
    var a := SkipLeft(s, sep);
    if a == |s| then []
    else
      var t := s[a..];
      var k := RunEnd(t, sep);
      [t[..k]] + Runs(t[k..], sep)
  }

  // ---------------------------------------------------------------- numbers

  function DigitChar(d: nat): (c: char)
    requires d < 10
    ensures IsDigit(c)
  {
    ('0' as int + d) as char
  }

  /** str(n) for a non-negative integer: its decimal digits, no leading zeros. */
  function NatToString(n: nat): (r: string)
    ensures |r| >= 1
    ensures forall i :: 0 <= i < |r| ==> IsDigit(r[i])
    decreases n
  {
    if n < 10 then [DigitChar(n)] else NatToString(n / 10) + [DigitChar(n % 10)]
  }

  lemma {:induction false} NatToStringLength(n: nat)
    ensures n < 10 ==> |NatToString(n)| == 1
    ensures 10 <= n < 100 ==> |NatToString(n)| == 2
    ensures 100 <= n < 1000 ==> |NatToString(n)| == 3
    ensures n < 1000 ==> |NatToString(n)| <= 3
  {
    if n >= 10 { NatToStringLength(n / 10); }
  }

  /** Different numbers have different decimal forms. */
  lemma {:induction false} NatToStringInjective(m: nat, n: nat)
    requires NatToString(m) == NatToString(n)
    ensures m == n
    decreases m
  {
    var s := NatToString(m);
    if m < 10 && n < 10 {
    } else if m >= 10 && n >= 10 {
      assert NatToString(m / 10) == s[..|s| - 1] == NatToString(n / 10);
      NatToStringInjective(m / 10, n / 10);
      assert m % 10 == n % 10 by { assert DigitChar(m % 10) == s[|s| - 1] == DigitChar(n % 10); }
    }
  }

  /** str(n) for any integer: a minus sign before the digits of a negative number. */
  function IntToString(n: int): (r: string)
    ensures n >= 0 ==> r == NatToString(n)
    ensures n < 0 ==> r == "-" + NatToString(-n)
  {
    if n < 0 then "-" + NatToString(-n) else NatToString(n)
  }
}
