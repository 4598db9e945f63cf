/**
 * The job-description parser: each non-blank line becomes a skill line, a
 * responsibility line, or a source of keywords.
 */
module JobParser {
  import opened Text
  import StringOrder
  import Seqs

  /**
   * The characters `str.splitlines` breaks at. Python keeps the empty
   * lines between consecutive breaks (and treats "\r\n" as one break);
   * those lines are blank and are discarded anyway, so splitting into the
   * runs between break characters yields the same non-blank lines.
   */
  predicate IsLineBreak(c: char)
  {
    c == '\n' || c == '\r' || c as int == 11 || c as int == 12 || 28 <= c as int <= 30
    || c as int == 0x85 || c as int == 0x2028 || c as int == 0x2029
  }

  /** `[l.strip() for l in text.splitlines() if l.strip()]`. */
  function ContentLines(text: string): seq<string>
  {
    NonBlank(Runs(text, IsLineBreak))
  }

  // ---------------------------------------------------------------- classification

  datatype Bucket = SkillLine | ResponsibilityLine | KeywordLine

  const SkillMarkers: seq<string> := ["skill", "experience with", "proficient in"]
  const ResponsibilityMarkers: seq<string> := ["responsibl", "responsibility", "you will"]

  /** `any(tok in lower for tok in markers)`. */
  predicate MentionsAny(lower: string, markers: seq<string>)
  {
    exists i :: 0 <= i < |markers| && Contains(lower, markers[i])
  }

  /** The bucket a line goes to: skill markers win over responsibility markers, and the rest gives keywords. */
  function Classify(line: string): (b: Bucket)
    ensures b == SkillLine <==> MentionsAny(Lower(line), SkillMarkers)
    ensures b == ResponsibilityLine <==> !MentionsAny(Lower(line), SkillMarkers) && MentionsAny(Lower(line), ResponsibilityMarkers)
    ensures b == KeywordLine <==> !MentionsAny(Lower(line), SkillMarkers) && !MentionsAny(Lower(line), ResponsibilityMarkers)
  {
    var lower := Lower(line);
    if MentionsAny(lower, SkillMarkers) then SkillLine
    else if MentionsAny(lower, ResponsibilityMarkers) then ResponsibilityLine
    else KeywordLine
  }

  /** The lines that go to bucket b, in their order. */
  function Bucketed(lines: seq<string>, b: Bucket): (r: seq<string>)
    ensures |r| <= |lines|
    decreases |lines|
  {
    if lines == [] then []
    else
      var prev := Bucketed(lines[..|lines| - 1], b);
      var line := lines[|lines| - 1];
      if Classify(line) == b then prev + [line] else prev
  }

  /** The bucket sizes add up to the number of lines. */
  lemma {:induction false} BucketSizes(lines: seq<string>)
    ensures |Bucketed(lines, SkillLine)| + |Bucketed(lines, ResponsibilityLine)| + |Bucketed(lines, KeywordLine)| == |lines|
    decreases |lines|
  {
    if lines != [] {
      BucketSizes(lines[..|lines| - 1]);
    }
  }

  /** Every line of a bucket is one of the lines and belongs to that bucket. */
  lemma {:induction false} BucketSound(lines: seq<string>, b: Bucket)
    ensures forall i :: 0 <= i < |Bucketed(lines, b)| ==> Classify(Bucketed(lines, b)[i]) == b && Bucketed(lines, b)[i] in lines
    decreases |lines|
  {
    if lines != [] {
      var init := lines[..|lines| - 1];
      BucketSound(init, b);
      var r := Bucketed(lines, b);
      forall i | 0 <= i < |r| ensures Classify(r[i]) == b && r[i] in lines {
        if i < |Bucketed(init, b)| {
          assert r[i] == Bucketed(init, b)[i];
          assert r[i] in init;
        }
      }
    }
  }

  /** Every line lands in its own bucket. */
  lemma {:induction false} BucketComplete(lines: seq<string>)
    ensures forall i :: 0 <= i < |lines| ==> lines[i] in Bucketed(lines, Classify(lines[i]))
    decreases |lines|
  {
    if lines != [] {
      var init := lines[..|lines| - 1];
      BucketComplete(init);
      forall i | 0 <= i < |lines| ensures lines[i] in Bucketed(lines, Classify(lines[i])) {
        if i < |init| {
          assert lines[i] == init[i];
          assert init[i] in Bucketed(init, Classify(init[i]));
        }
      }
    }
  }

  /**
   * The buckets partition the lines: each line lands in its own bucket and
   * in no other, and the bucket sizes add up to the number of lines.
   */
  lemma BucketsPartition(lines: seq<string>)
    ensures |Bucketed(lines, SkillLine)| + |Bucketed(lines, ResponsibilityLine)| + |Bucketed(lines, KeywordLine)| == |lines|
    ensures forall b, i :: 0 <= i < |Bucketed(lines, b)| ==> Classify(Bucketed(lines, b)[i]) == b && Bucketed(lines, b)[i] in lines
    ensures forall i :: 0 <= i < |lines| ==> lines[i] in Bucketed(lines, Classify(lines[i]))
  {
    BucketSizes(lines);
    forall b ensures forall i :: 0 <= i < |Bucketed(lines, b)| ==> Classify(Bucketed(lines, b)[i]) == b && Bucketed(lines, b)[i] in lines {
      BucketSound(lines, b);
    }
    BucketComplete(lines);
  }

  // ---------------------------------------------------------------- keywords

  /** The characters `w.strip(',:;.()')` removes from the ends of a word. */
  predicate IsKeywordTrim(c: char)
  {
    c == ',' || c == ':' || c == ';' || c == '.' || c == '(' || c == ')'
  }

  /** What one word adds: the trimmed word, when the untrimmed word is longer than 3 characters. */
  function WordKeywords(words: seq<string>): set<string>
    decreases |words|
  {
    if words == [] then {}
    else
      var w := words[|words| - 1];
      WordKeywords(words[..|words| - 1]) + (if |w| > 3 then {Trim(w, IsKeywordTrim)} else {})
  }

  /** The keywords of the whole text: those of every keyword line. */
  function KeywordSet(lines: seq<string>): set<string>
  {
    Seqs.UnionMap(lines, LineKeywords)
  }

  /** What one line adds: the keywords of its words when it is a keyword line, nothing otherwise. */
  function LineKeywords(line: string): set<string>
  {
    if Classify(line) == KeywordLine then WordKeywords(Words(line)) else {}
  }

  lemma {:induction false} WordKeywordsSpec(words: seq<string>, k: string)
    ensures k in WordKeywords(words) <==> exists i :: 0 <= i < |words| && |words[i]| > 3 && Trim(words[i], IsKeywordTrim) == k
    decreases |words|
  {
    if words != [] {
      var init := words[..|words| - 1];
      WordKeywordsSpec(init, k);
      assert forall i :: 0 <= i < |init| ==> init[i] == words[i];
    }
  }

  /** Line `line` is a keyword line and one of its words gives keyword k. */
  predicate GivesKeyword(line: string, k: string)
  {
    k in LineKeywords(line)
  }

  /**
   * A keyword comes from a word longer than 3 characters on some keyword
   * line, with ",:;.()" stripped from its ends, and every such word gives one.
   */
  lemma KeywordSetSpec(lines: seq<string>, k: string)
    ensures k in KeywordSet(lines) <==> exists i :: 0 <= i < |lines| && GivesKeyword(lines[i], k)
  {
    Seqs.UnionMapSpec(lines, LineKeywords, k);
  }

  /**
   * The length test comes before the trimming: the four-character word
   * "(ab)" passes it and yields the two-character keyword "ab".
   */
  lemma ShortKeyword()
    ensures "ab" in WordKeywords(Words("(ab)"))
    ensures forall k :: k in WordKeywords(Words("(ab)")) ==> |k| == 2
  {
    var w := "(ab)";
    assert IsWord(w);
    WordsCons(w, "");
    assert w + "" == w;
    assert Words("") == [];
    assert Words(w) == [w];
    var t := w[SkipLeft(w, IsKeywordTrim)..];
    SkipLeftIs(w, IsKeywordTrim, 1);
    assert t == "ab)";
    assert SkipRight(t, IsKeywordTrim) == 2 by {
      assert SkipRight(t[..2], IsKeywordTrim) == 2;
    }
    assert Trim(w, IsKeywordTrim) == "ab";
    assert WordKeywords([w]) == {"ab"} by {
      assert [w][..0] == [];
    }
  }

  // ---------------------------------------------------------------- parse_job_description

  datatype Parsed = Parsed(skills: seq<string>, responsibilities: seq<string>, keywords: seq<string>)

  /**
   * `parse_job_description`: the skill and responsibility lines in text
   * order, and the keywords ascending without repetitions.
   */
  method ParseJobDescription(text: string) returns (r: Parsed)
    ensures r.skills == Bucketed(ContentLines(text), SkillLine)
    ensures r.responsibilities == Bucketed(ContentLines(text), ResponsibilityLine)
    ensures StringOrder.Sorted(r.keywords)
    ensures forall k :: k in r.keywords <==> k in KeywordSet(ContentLines(text))
  {
    var lines := ContentLines(text);
    var keywords: set<string> := {};
    var skills: seq<string> := [];
    var responsibilities: seq<string> := [];
    var i := 0;
    while i < |lines|
      invariant 0 <= i <= |lines|
      invariant skills == Bucketed(lines[..i], SkillLine)
      invariant responsibilities == Bucketed(lines[..i], ResponsibilityLine)
      invariant keywords == KeywordSet(lines[..i])
    {
      var line := lines[i];
      var lower := Lower(line);
      assert lines[..i + 1][..i] == lines[..i];
      if MentionsAny(lower, SkillMarkers) {
        skills := skills + [line];
      } else if MentionsAny(lower, ResponsibilityMarkers) {
        responsibilities := responsibilities + [line];
      } else {
        keywords := AddLineKeywords(keywords, line);
      }
      i := i + 1;
    }
    assert lines[..|lines|] == lines;
    var sorted := StringOrder.SortSet(keywords);
    r := Parsed(skills, responsibilities, sorted);
  }

  /** The inner loop: each word longer than 3 characters adds its trimmed form. */
  method AddLineKeywords(keywords0: set<string>, line: string) returns (keywords: set<string>)
    ensures keywords == keywords0 + WordKeywords(Words(line))
  {
    var words := Words(line);
    keywords := keywords0;
    var j := 0;
    while j < |words|
      invariant 0 <= j <= |words|
      invariant keywords == keywords0 + WordKeywords(words[..j])
    {
      var w := words[j];
      WordKeywordsStep(words, j);
      if |w| > 3 {
        keywords := keywords + {Trim(w, IsKeywordTrim)};
      }
      j := j + 1;
    }
    assert words[..|words|] == words;
  }

  lemma WordKeywordsStep(words: seq<string>, j: int)
    requires 0 <= j < |words|
    ensures WordKeywords(words[..j + 1]) == WordKeywords(words[..j]) + (if |words[j]| > 3 then {Trim(words[j], IsKeywordTrim)} else {})
  {
    assert words[..j + 1][..j] == words[..j];
  }
}
