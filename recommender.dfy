/**
 * The bullet recommender of src/ai/recommender.py: bullets are ranked against
 * a job description by sentence-embedding similarity, re-ranked by a
 * cross-encoder, normalised, and boosted by the must-have and nice-to-have
 * phrases found under the description's section headers.
 *
 * The sentence-embedding model, the cross-encoder and spaCy's sentence and
 * noun-chunk segmentation are foreign: they are the fields of `Models`.
 */
module Recommender {
  import opened Wrappers
  import opened Text
  import opened Assoc
  import opened Seqs
  import opened Numeric
  import Sorting
  import Stopwords

  /** A bullet record: field name to text; only its "bullet" field is read here. */
  datatype Bullet = Bullet(fields: Dict<string, string>)

  /** b.get('bullet', ''). */
  function BulletText(b: Bullet): string
  {
    GetOr(b.fields, "bullet", "")
  }

  /** A Python dict is true when it is not empty. */
  predicate Truthy(b: Bullet)
  {
    b.fields != []
  }

  /** One sentence as spaCy re-parses it: its tokens, and the text of its noun chunks. */
  datatype Sentence = Sentence(tokens: seq<string>, chunks: seq<string>)

  /**
   * The foreign models: cosine similarity of two texts' sentence embeddings
   * (first argument the query side), the cross-encoder's score of a
   * (query, passage) pair, and sentence segmentation of a text.
   */
  datatype Models = Models(
    similarity: (string, string) -> real,
    crossEncoder: (string, string) -> real,
    sentences: string -> seq<Sentence>)

  // ================================================================ preprocess_text

  /** " ".join(text.lower().split()). */
  function Preprocess(text: string): string
  {
    Join(Words(Lower(text)), " ")
  }

  /** Lower-case, spaces only, no space at either end and never two in a row. */
  predicate Normalised(s: string)
  {
    && (forall i :: 0 <= i < |s| ==> !IsAsciiUpper(s[i]) && (IsSpace(s[i]) ==> s[i] == ' '))
    && (s != [] ==> s[0] != ' ' && s[|s| - 1] != ' ')
    && (forall i :: 0 <= i < |s| - 1 ==> !(s[i] == ' ' && s[i + 1] == ' '))
  }

  predicate NoUpper(s: string)
  {
    forall i :: 0 <= i < |s| ==> !IsAsciiUpper(s[i])
  }

  /** The words of a text without capitals have none either. */
  lemma {:induction false} WordsNoUpper(s: string)
    requires NoUpper(s)
    ensures forall i :: 0 <= i < |Words(s)| ==> NoUpper(Words(s)[i])
    decreases |s|
  {
    var a := SkipLeft(s, IsSpace);
    if a < |s| {
      var t := s[a..];
      var k := RunEnd(t, IsSpace);
      assert NoUpper(t[k..]);
      WordsNoUpper(t[k..]);
      assert Words(s) == [t[..k]] + Words(t[k..]);
    }
  }

  lemma {:induction false} JoinNormalised(ws: seq<string>)
    requires forall i :: 0 <= i < |ws| ==> IsWord(ws[i]) && NoUpper(ws[i])
    ensures Normalised(Join(ws, " "))
    ensures ws != [] ==> Join(ws, " ") != []
    decreases |ws|
  {
    if |ws| > 1 {
      var w, rest := ws[0], Join(ws[1..], " ");
      JoinNormalised(ws[1..]);
      var s := w + " " + rest;
      assert Join(ws, " ") == s;
      forall i | 0 <= i < |s| - 1 ensures !(s[i] == ' ' && s[i + 1] == ' ') {
        if i >= |w| + 1 {
          assert s[i] == rest[i - |w| - 1] && s[i + 1] == rest[i - |w|];
        } else if i == |w| {
          assert s[i + 1] == rest[0];
        } else {
          assert s[i] == w[i];
        }
      }
      forall i | 0 <= i < |s| ensures !IsAsciiUpper(s[i]) && (IsSpace(s[i]) ==> s[i] == ' ') {
        if i < |w| { assert s[i] == w[i]; }
        else if i > |w| { assert s[i] == rest[i - |w| - 1]; }
      }
    }
  }

  /** preprocess_text yields lower-case text with single spaces between words and none at the ends. */
  lemma PreprocessNormalised(text: string)
    ensures Normalised(Preprocess(text))
  {
    var ws := Words(Lower(text));
    WordsNoUpper(Lower(text));
    WordsAreWords(Lower(text));
    JoinNormalised(ws);
  }

  /** Applying preprocess_text twice gives the same as once. */
  lemma PreprocessIdempotent(text: string)
    ensures Preprocess(Preprocess(text)) == Preprocess(text)
  {
    var ws := Words(Lower(text));
    var p := Join(ws, " ");
    PreprocessNormalised(text);
    assert Lower(p) == p;
    WordsAreWords(Lower(text));
    WordsJoin(ws);
  }

  // ================================================================ extract_priority_skills

  datatype Section = MustHave | NiceToHave

  /** The header patterns starting at token i, compared on lower-cased tokens. */
  function HeaderAt(tokens: seq<string>, i: nat): Option<Section>
    requires i < |tokens|
  {
    var t := Lower(tokens[i]);
    var at := (k: nat, w: string) => i + k < |tokens| && Lower(tokens[i + k]) == w;
    if (t == "must" && at(1, "have")) || t == "must-have" || t == "required" || t == "essential" then
      Some(MustHave)
    else if (t == "nice" && at(1, "to") && at(2, "have")) || t == "nice-to-have" || t == "preferred"
         || (t == "might" && at(1, "also") && at(2, "have")) then
      Some(NiceToHave)
    else None
  }

  /** The label of the first header match from token `from` on. */
  function Header(tokens: seq<string>, from: nat): Option<Section>
    decreases |tokens| - from
  {
    if from >= |tokens| then None
    else if HeaderAt(tokens, from).Some? then HeaderAt(tokens, from)
    else Header(tokens, from + 1)
  }

  /** Matches are taken in token order: the label is the one of the earliest position where a pattern matches. */
  lemma {:induction false} HeaderFirst(tokens: seq<string>, from: nat)
    ensures Header(tokens, from).Some? <==> exists i :: from <= i < |tokens| && HeaderAt(tokens, i).Some?
    ensures Header(tokens, from).Some? ==>
      exists i :: (from <= i < |tokens| && HeaderAt(tokens, i) == Header(tokens, from)
                   && forall j :: from <= j < i ==> HeaderAt(tokens, j).None?)
    decreases |tokens| - from
  {
    if from < |tokens| && HeaderAt(tokens, from).None? {
      HeaderFirst(tokens, from + 1);
      if Header(tokens, from).Some? {
        var i :| from + 1 <= i < |tokens| && HeaderAt(tokens, i) == Header(tokens, from)
          && forall j :: from + 1 <= j < i ==> HeaderAt(tokens, j).None?;
        assert forall j :: from <= j < i ==> HeaderAt(tokens, j).None?;
      }
    }
  }

  /** [chunk.text.strip() for chunk in sent_doc.noun_chunks]. */
  function ChunkTexts(s: Sentence): seq<string>
  {
    seq(|s.chunks|, i requires 0 <= i < |s.chunks| => Strip(s.chunks[i]))
  }

  /** The scanner's state: the current section and the phrases gathered so far. */
  datatype ScanState = ScanState(current: Option<Section>, musts: seq<string>, nices: seq<string>)

  /** What one sentence does to the scanner's state. */
  function Step(st: ScanState, s: Sentence): ScanState
  {
    match Header(s.tokens, 0)
    case Some(section) => st.(current := Some(section))
    case None =>
      if st.current == Some(MustHave) then st.(musts := st.musts + ChunkTexts(s))
      else if st.current == Some(NiceToHave) then st.(nices := st.nices + ChunkTexts(s))
      else st
  }

  /** The state after scanning the sentences, one after another. */
  function Scan(sents: seq<Sentence>): ScanState
    decreases |sents|
  {
    if sents == [] then ScanState(None, [], []) else Step(Scan(sents[..|sents| - 1]), sents[|sents| - 1])
  }

  predicate IsHeader(s: Sentence)
  {
    Header(s.tokens, 0).Some?
  }

  /** The must-have and nice-to-have phrases, each deduplicated keeping first occurrences. */
  function Priorities(sents: seq<Sentence>): (seq<string>, seq<string>)
  {
    var st := Scan(sents);
    (Dedup(st.musts), Dedup(st.nices))
  }

  /** One more sentence: a header switches the section, any other sentence adds its chunks to it. */
  lemma StepFields(st: ScanState, s: Sentence)
    ensures Step(st, s).current == (if IsHeader(s) then Header(s.tokens, 0) else st.current)
    ensures Step(st, s).musts == (if !IsHeader(s) && st.current == Some(MustHave) then st.musts + ChunkTexts(s) else st.musts)
    ensures Step(st, s).nices == (if !IsHeader(s) && st.current == Some(NiceToHave) then st.nices + ChunkTexts(s) else st.nices)
  {
  }

  lemma ScanStep(sents: seq<Sentence>, n: nat)
    requires n < |sents|
    ensures Scan(sents[..n + 1]) == Step(Scan(sents[..n]), sents[n])
  {
    var s := sents[..n + 1];
    calc {
      Scan(s);
      Step(Scan(s[..|s| - 1]), s[|s| - 1]);
      { assert s[..|s| - 1] == sents[..n]; }
      Step(Scan(sents[..n]), sents[n]);
    }
  }

  /** The phrases gathered in a section so far, as a predicate on the sentence index. */
  predicate GatheredAt(sents: seq<Sentence>, i: nat, section: Section, x: string)
    requires i < |sents|
  {
    !IsHeader(sents[i]) && Scan(sents[..i]).current == Some(section) && x in ChunkTexts(sents[i])
  }

  function Gathered(st: ScanState, section: Section): seq<string>
  {
    if section == MustHave then st.musts else st.nices
  }

  lemma GatheredShift(sents: seq<Sentence>, n: nat, i: nat, section: Section, x: string)
    requires i < n < |sents|
    ensures GatheredAt(sents[..n], i, section, x) <==> GatheredAt(sents, i, section, x)
  {
    assert sents[..n][..i] == sents[..i] && sents[..n][i] == sents[i];
  }

  /** A phrase is gathered under a section iff it is a chunk of a non-header sentence read in that section. */
  lemma {:induction false} ScanMembers(sents: seq<Sentence>, section: Section, x: string)
    ensures x in Gathered(Scan(sents), section) <==> exists i :: 0 <= i < |sents| && GatheredAt(sents, i, section, x)
    decreases |sents|
  {
    if sents != [] {
      var n := |sents| - 1;
      var init := sents[..n];
      ScanMembers(init, section, x);
      ScanStep(sents, n);
      StepFields(Scan(init), sents[n]);
      assert sents[..n + 1] == sents;
      var g := Gathered(Scan(init), section);
      var cond := !IsHeader(sents[n]) && Scan(init).current == Some(section);
      var extra := if cond then ChunkTexts(sents[n]) else [];
      assert Gathered(Scan(sents), section) == g + extra by {
        if !cond { assert g + extra == g; }
      }
      if x in g {
        var i :| 0 <= i < n && GatheredAt(init, i, section, x);
        GatheredShift(sents, n, i, section, x);
      }
      if x in extra {
        assert GatheredAt(sents, n, section, x);
      }
      if exists i :: 0 <= i < |sents| && GatheredAt(sents, i, section, x) {
        var i :| 0 <= i < |sents| && GatheredAt(sents, i, section, x);
        if i < n {
          GatheredShift(sents, n, i, section, x);
        } else {
          assert i == n;
          assert cond && x in ChunkTexts(sents[n]);
        }
      }
    }
  }

  /** The index of the last header sentence among the first n, if any. */
  predicate LastHeaderAt(sents: seq<Sentence>, i: nat)
    requires i < |sents|
  {
    IsHeader(sents[i]) && forall j :: i < j < |sents| ==> !IsHeader(sents[j])
  }

  /** The section is the one named by the last header sentence; before any header there is none. */
  lemma {:induction false} ScanSection(sents: seq<Sentence>)
    ensures Scan(sents).current.Some? <==> exists i :: 0 <= i < |sents| && IsHeader(sents[i])
    ensures Scan(sents).current.Some? ==>
      exists i :: 0 <= i < |sents| && LastHeaderAt(sents, i) && Header(sents[i].tokens, 0) == Scan(sents).current
    decreases |sents|
  {
    if sents != [] {
      var n := |sents| - 1;
      var init := sents[..n];
      ScanSection(init);
      ScanStep(sents, n);
      StepFields(Scan(init), sents[n]);
      assert sents[..n + 1] == sents;
      if IsHeader(sents[n]) {
        assert LastHeaderAt(sents, n);
      } else {
        assert Scan(sents).current == Scan(init).current;
        if exists i :: 0 <= i < |sents| && IsHeader(sents[i]) {
          var i :| 0 <= i < |sents| && IsHeader(sents[i]);
          assert i < n && init[i] == sents[i];
        }
        if Scan(init).current.Some? {
          var i :| 0 <= i < n && LastHeaderAt(init, i) && Header(init[i].tokens, 0) == Scan(init).current;
          assert init[i] == sents[i];
          forall j | i < j < |sents| ensures !IsHeader(sents[j]) {
            if j < n {
              assert LastHeaderAt(init, i);
              assert !IsHeader(init[j]);
              assert init[j] == sents[j];
            } else {
              assert j == n;
            }
          }
          assert LastHeaderAt(sents, i);
        }
      }
    }
  }

  /** Nothing is gathered before the first header sentence. */
  lemma NothingBeforeHeader(sents: seq<Sentence>)
    requires forall i :: 0 <= i < |sents| ==> !IsHeader(sents[i])
    ensures Scan(sents) == ScanState(None, [], [])
  {
    ScanSection(sents);
    forall x ensures x !in Scan(sents).musts && x !in Scan(sents).nices {
      ScanMembers(sents, MustHave, x);
      ScanMembers(sents, NiceToHave, x);
      forall i | 0 <= i < |sents| ensures Scan(sents[..i]).current == None {
        ScanSection(sents[..i]);
        assert forall j :: 0 <= j < i ==> sents[..i][j] == sents[j];
      }
    }
  }

  /**
   * Both lists are free of repetitions, and a phrase is listed under a
   * section exactly when some non-header sentence read in that section has it
   * among its stripped noun chunks.
   */
  lemma PrioritiesSpec(sents: seq<Sentence>, x: string)
    ensures Distinct(Priorities(sents).0) && Distinct(Priorities(sents).1)
    ensures x in Priorities(sents).0 <==> exists i :: 0 <= i < |sents| && GatheredAt(sents, i, MustHave, x)
    ensures x in Priorities(sents).1 <==> exists i :: 0 <= i < |sents| && GatheredAt(sents, i, NiceToHave, x)
  {
    DedupSpec(Scan(sents).musts);
    DedupSpec(Scan(sents).nices);
    ScanMembers(sents, MustHave, x);
    ScanMembers(sents, NiceToHave, x);
  }

  /**
   * extract_priority_skills on the sentences of the description: a header
   * sentence switches the section and contributes nothing; other sentences
   * contribute their stripped noun chunks to the current section.
   */
  method ExtractPrioritySkills(sentences: seq<Sentence>) returns (musts: seq<string>, nices: seq<string>)
    ensures (musts, nices) == Priorities(sentences)
  {
    musts, nices := [], [];
    var current: Option<Section> := None;
    var i := 0;
    while i < |sentences|
      invariant 0 <= i <= |sentences|
      invariant Scan(sentences[..i]) == ScanState(current, musts, nices)
    {
      ScanStep(sentences, i);
      current, musts, nices := ScanSentence(current, musts, nices, sentences[i]);
      i := i + 1;
    }
    assert sentences[..i] == sentences;
    musts := Dedup(musts);
    nices := Dedup(nices);
  }

  /** The body of the loop of extract_priority_skills for one sentence. */
  method ScanSentence(current: Option<Section>, musts: seq<string>, nices: seq<string>, sent: Sentence)
    returns (current': Option<Section>, musts': seq<string>, nices': seq<string>)
    ensures ScanState(current', musts', nices') == Step(ScanState(current, musts, nices), sent)
  {
    StepFields(ScanState(current, musts, nices), sent);
    current', musts', nices' := current, musts, nices;
    var header := Header(sent.tokens, 0);
    if header.Some? {
      current' := header;
      return;
    }
    if current.Some? {
      var chunks := ChunkTexts(sent);
      var j := 0;
      while j < |chunks|
        invariant 0 <= j <= |chunks|
        invariant current == Some(MustHave) ==> musts' == musts + chunks[..j] && nices' == nices
        invariant current != Some(MustHave) ==> nices' == nices + chunks[..j] && musts' == musts
      {
        if current == Some(MustHave) {
          musts' := musts' + [chunks[j]];
        } else {
          nices' := nices' + [chunks[j]];
        }
        assert chunks[..j + 1] == chunks[..j] + [chunks[j]];
        j := j + 1;
      }
      assert chunks[..j] == chunks;
      assert current.value.MustHave? || current.value.NiceToHave?;
    }
  }

  // ================================================================ extract_skills_from_jd



  /** The runs of at least three characters that are not stopwords. */
  function KeepTokens(runs: seq<string>): (r: seq<string>)
    ensures forall i :: 0 <= i < |r| ==> |r[i]| >= 3 && !Stopwords.IsStopword(r[i]) && r[i] in runs
    decreases |runs|
  {
    if runs == [] then []
    else
      var w := runs[|runs| - 1];
      var r := KeepTokens(runs[..|runs| - 1]);
      assert forall x :: x in runs[..|runs| - 1] ==> x in runs;
      if |w| >= 3 && !Stopwords.IsStopword(w) then r + [w] else r
  }

  predicate NotWordChar(c: char) { !IsWordChar(c) }

  /** re.findall(r"\w{3,}", text.lower()) without the stopwords. */
  function Tokens(jd: string): seq<string>
  {
    KeepTokens(Runs(Lower(jd), NotWordChar))
  }

  /** Every token has at least three word characters and is not a stopword. */
  lemma TokensShape(jd: string)
    ensures forall i :: 0 <= i < |Tokens(jd)| ==> var w := Tokens(jd)[i];
      |w| >= 3 && !Stopwords.IsStopword(w) && forall j :: 0 <= j < |w| ==> IsWordChar(w[j])
  {
    var runs := Runs(Lower(jd), NotWordChar);
    forall i | 0 <= i < |Tokens(jd)| ensures forall j :: 0 <= j < |Tokens(jd)[i]| ==> IsWordChar(Tokens(jd)[i][j]) {
      var w := Tokens(jd)[i];
      var k :| 0 <= k < |runs| && runs[k] == w;
    }
  }

  function Bigrams(ws: seq<string>): seq<string>
  {
    seq(if |ws| >= 1 then |ws| - 1 else 0, i requires 0 <= i < |ws| - 1 => ws[i] + " " + ws[i + 1])
  }

  function Trigrams(ws: seq<string>): seq<string>
  {
    seq(if |ws| >= 2 then |ws| - 2 else 0, i requires 0 <= i < |ws| - 2 => ws[i] + " " + ws[i + 1] + " " + ws[i + 2])
  }

  /** unigrams + bigrams + trigrams. */
  function Candidates(ws: seq<string>): seq<string>
  {
    Dedup(ws) + Bigrams(ws) + Trigrams(ws)
  }

  /** A candidate is a token, or two or three consecutive tokens joined by spaces. */
  lemma CandidateShape(ws: seq<string>, c: string)
    requires c in Candidates(ws)
    ensures c in ws
      || (exists i :: 0 <= i < |ws| - 1 && c == ws[i] + " " + ws[i + 1])
      || (exists i :: 0 <= i < |ws| - 2 && c == ws[i] + " " + ws[i + 1] + " " + ws[i + 2])
  {
    var d := Dedup(ws);
    if c in d {
      DedupSpec(ws);
    } else if c in Bigrams(ws) {
      var k :| 0 <= k < |Bigrams(ws)| && Bigrams(ws)[k] == c;
    } else {
      assert c in Trigrams(ws);
      var k :| 0 <= k < |Trigrams(ws)| && Trigrams(ws)[k] == c;
    }
  }

  /** The frequency table of the candidates, built one candidate at a time. */
  function Freq(cands: seq<string>): Dict<string, int>
    decreases |cands|
  {
    if cands == [] then [] else AddTo(Freq(cands[..|cands| - 1]), cands[|cands| - 1], 1)
  }

  /** The frequency table counts every candidate. */
  lemma {:induction false} FreqCount(cands: seq<string>, x: string)
    ensures GetOr(Freq(cands), x, 0) == Count(cands, x)
    decreases |cands|
  {
    if cands != [] {
      var init, c := cands[..|cands| - 1], cands[|cands| - 1];
      FreqCount(init, x);
      AddToGet(Freq(init), c, 1, x);
    }
  }

  /** Its keys are the candidates in order of first occurrence. */
  lemma {:induction false} FreqKeys(cands: seq<string>)
    ensures Keys(Freq(cands)) == Dedup(cands)
    decreases |cands|
  {
    if cands != [] {
      var init, c := cands[..|cands| - 1], cands[|cands| - 1];
      FreqKeys(init);
      AddToKeys(Freq(init), c, 1);
    }
  }

  /** No candidate is counted under two entries. */
  lemma {:induction false} FreqDistinct(cands: seq<string>)
    ensures DistinctKeys(Freq(cands))
    decreases |cands|
  {
    if cands != [] {
      var init, c := cands[..|cands| - 1], cands[|cands| - 1];
      FreqDistinct(init);
      AddToDistinct(Freq(init), c, 1);
    }
  }

  lemma FreqStep(cands: seq<string>, i: int)
    requires 0 <= i < |cands|
    ensures Freq(cands[..i + 1]) == AddTo(Freq(cands[..i]), cands[i], 1)
  {
    var s := cands[..i + 1];
    calc {
      Freq(s);
      AddTo(Freq(s[..|s| - 1]), s[|s| - 1], 1);
      { assert s[..|s| - 1] == cands[..i]; }
      AddTo(Freq(cands[..i]), cands[i], 1);
    }
  }

  /** The longest key of a table. */
  function MaxLen(d: Dict<string, int>): (m: nat)
    ensures forall i :: 0 <= i < |d| ==> |d[i].0| <= m
    decreases |d|
  {
    if d == [] then 0
    else
      var m := MaxLen(d[1..]);
      assert forall i :: 1 <= i < |d| ==> d[i] == d[1..][i - 1];
      if |d[0].0| > m then |d[0].0| else m
  }

  /** The sort key (frequency, length) packed into one number, for lengths below `width`. */
  function RankKey(width: nat): ((string, int)) -> real
  {
    (p: (string, int)) => (p.1 * width + |p.0|) as real
  }

  /** Packing preserves lexicographic order on (frequency, length). */
  lemma PackedOrder(f1: int, l1: nat, f2: int, l2: nat, width: nat)
    requires l1 < width && l2 < width
    ensures f1 * width + l1 >= f2 * width + l2 <==> f1 > f2 || (f1 == f2 && l1 >= l2)
  {
    if f1 > f2 {
      MulAtLeast(f1 - f2, width);
      assert f1 * width - f2 * width == (f1 - f2) * width;
    } else if f1 < f2 {
      MulAtLeast(f2 - f1, width);
      assert f2 * width - f1 * width == (f2 - f1) * width;
    }
  }

  lemma MulAtLeast(k: int, w: nat)
    requires k >= 1
    ensures k * w >= w
  {
    assert k * w == (k - 1) * w + w;
    assert (k - 1) * w >= 0;
  }

  /** sorted(freq.items(), key=lambda x: (-x[1], -len(x[0]))). */
  function Rank(f: Dict<string, int>): seq<(string, int)>
  {
    Sorting.SortDesc(f, RankKey(MaxLen(f) + 1))
  }

  /** The frequency table sorted by (frequency, length), both descending. */
  function RankedPhrases(words: seq<string>): seq<(string, int)>
  {
    Rank(Freq(Candidates(words)))
  }

  /** extract_skills_from_jd. */
  function ExtractSkills(jd: string, topK: int): seq<string>
  {
    var words := Tokens(jd);
    if words == [] then [] else Keys(Sorting.Prefix(RankedPhrases(words), topK))
  }

  /** An entry of the frequency table is a candidate with its number of occurrences. */
  lemma FreqEntry(c: seq<string>, p: (string, int))
    requires p in Freq(c)
    ensures p.0 in c && p.1 == Count(c, p.0) && |p.0| <= MaxLen(Freq(c))
  {
    var f := Freq(c);
    var k :| 0 <= k < |f| && f[k] == p;
    FreqKeys(c);
    FreqDistinct(c);
    GetAt(f, k);
    FreqCount(c, p.0);
    assert Keys(f)[k] == p.0;
    assert p.0 in Dedup(c);
    DedupSpec(c);
  }

  /** No candidate is ranked twice. */
  lemma RankedDistinct(words: seq<string>)
    ensures DistinctKeys(RankedPhrases(words))
  {
    var f := Freq(Candidates(words));
    FreqDistinct(Candidates(words));
    SortedTableDistinct(f, RankKey(MaxLen(f) + 1));
  }

  /** Sorting a table without repeated keys repeats none. */
  lemma SortedTableDistinct(d: Dict<string, int>, key: ((string, int)) -> real)
    requires DistinctKeys(d)
    ensures DistinctKeys(Sorting.SortDesc(d, key))
  {
    assert forall i, j :: 0 <= i < j < |d| ==> PhraseOf(d[i]) != PhraseOf(d[j]);
    Sorting.SortDescInjective(d, key, PhraseOf);
    var r := Sorting.SortDesc(d, key);
    assert forall i, j :: 0 <= i < j < |r| ==> PhraseOf(r[i]) != PhraseOf(r[j]);
  }

  function PhraseOf(p: (string, int)): string
  {
    p.0
  }

  /** Ranking a table keeps exactly its entries. */
  lemma RankMembers(f: Dict<string, int>)
    ensures forall i :: 0 <= i < |Rank(f)| ==> Rank(f)[i] in f
  {
    Sorting.SortDescMembers(f, RankKey(MaxLen(f) + 1));
  }

  /** A ranked table is in descending frequency, then descending length. */
  lemma RankOrder(f: Dict<string, int>)
    ensures forall i, j :: 0 <= i < j < |Rank(f)| ==>
      Rank(f)[i].1 > Rank(f)[j].1 || (Rank(f)[i].1 == Rank(f)[j].1 && |Rank(f)[i].0| >= |Rank(f)[j].0|)
  {
    var width := MaxLen(f) + 1;
    var ranked := Rank(f);
    Sorting.SortDescSpec(f, RankKey(width));
    RankMembers(f);
    forall i, j | 0 <= i < j < |ranked|
      ensures ranked[i].1 > ranked[j].1 || (ranked[i].1 == ranked[j].1 && |ranked[i].0| >= |ranked[j].0|)
    {
      assert ranked[i] in f && ranked[j] in f;
      assert RankKey(width)(ranked[i]) >= RankKey(width)(ranked[j]);
      PackedOrder(ranked[i].1, |ranked[i].0|, ranked[j].1, |ranked[j].0|, width);
    }
  }

  /** Every ranked entry is a candidate with its frequency. */
  lemma RankedEntries(words: seq<string>)
    ensures forall i :: 0 <= i < |RankedPhrases(words)| ==>
      RankedPhrases(words)[i].0 in Candidates(words)
      && RankedPhrases(words)[i].1 == Count(Candidates(words), RankedPhrases(words)[i].0)
  {
    var c := Candidates(words);
    var ranked := RankedPhrases(words);
    RankMembers(Freq(c));
    forall i | 0 <= i < |ranked| ensures ranked[i].0 in c && ranked[i].1 == Count(c, ranked[i].0) {
      FreqEntry(c, ranked[i]);
    }
  }

  /** The ranking is by descending frequency, then descending length. */
  lemma RankedOrder(words: seq<string>)
    ensures forall i, j :: 0 <= i < j < |RankedPhrases(words)| ==>
      RankedPhrases(words)[i].1 > RankedPhrases(words)[j].1
      || (RankedPhrases(words)[i].1 == RankedPhrases(words)[j].1 && |RankedPhrases(words)[i].0| >= |RankedPhrases(words)[j].0|)
  {
    RankOrder(Freq(Candidates(words)));
  }

  /** The phrases of the first k entries of a table: distinct when its keys are, and at most k of them. */
  lemma PrefixKeys(d: Dict<string, int>, k: int)
    ensures |Keys(Sorting.Prefix(d, k))| <= |d|
    ensures forall i :: 0 <= i < |Keys(Sorting.Prefix(d, k))| ==> Keys(Sorting.Prefix(d, k))[i] == d[i].0
    ensures k >= 0 ==> |Keys(Sorting.Prefix(d, k))| <= k
    ensures DistinctKeys(d) ==> Distinct(Keys(Sorting.Prefix(d, k)))
  {
    var top := Sorting.Prefix(d, k);
    assert forall i :: 0 <= i < |top| ==> top[i] == d[i];
  }

  /** The phrases are distinct candidates, at most top_k of them, and none without tokens. */
  lemma ExtractSkillsSpec(jd: string, topK: int)
    ensures Tokens(jd) == [] ==> ExtractSkills(jd, topK) == []
    ensures Distinct(ExtractSkills(jd, topK))
    ensures topK >= 0 ==> |ExtractSkills(jd, topK)| <= topK
    ensures forall i :: 0 <= i < |ExtractSkills(jd, topK)| ==> ExtractSkills(jd, topK)[i] in Candidates(Tokens(jd))
  {
    var words := Tokens(jd);
    if words != [] {
      var ranked := RankedPhrases(words);
      RankedEntries(words);
      RankedDistinct(words);
      PrefixKeys(ranked, topK);
    }
  }

  /** The phrases come in descending frequency among the candidates and, at equal frequency, descending length. */
  lemma ExtractSkillsOrder(jd: string, topK: int)
    ensures forall i, j :: 0 <= i < j < |ExtractSkills(jd, topK)| ==>
      var r := ExtractSkills(jd, topK); var c := Candidates(Tokens(jd));
      Count(c, r[i]) > Count(c, r[j]) || (Count(c, r[i]) == Count(c, r[j]) && |r[i]| >= |r[j]|)
  {
    var words := Tokens(jd);
    if words != [] {
      var ranked := RankedPhrases(words);
      RankedEntries(words);
      RankedOrder(words);
      PrefixKeys(ranked, topK);
    }
  }

  /** `ranked[:top_k]`: exactly top_k phrases, or every distinct candidate when there are fewer. */
  lemma ExtractSkillsCount(jd: string, topK: int)
    requires topK >= 0
    ensures var n := |Dedup(Candidates(Tokens(jd)))|;
      |ExtractSkills(jd, topK)| == if topK < n then topK else n
  {
    var words := Tokens(jd);
    var c := Candidates(words);
    if words != [] {
      var f := Freq(c);
      FreqKeys(c);
      assert |f| == |Dedup(c)|;
      Sorting.SortDescSpec(f, RankKey(MaxLen(f) + 1));
      assert |Rank(f)| == |multiset(Rank(f))| == |multiset(f)| == |f|;
    }
  }

  /** A candidate left out of the top_k ranks below every phrase kept: no higher frequency, and no greater length at equal frequency. */
  lemma ExtractSkillsTop(jd: string, topK: int, c: string, r: string)
    requires topK >= 0
    requires c in Candidates(Tokens(jd)) && c !in ExtractSkills(jd, topK)
    requires r in ExtractSkills(jd, topK)
    ensures var cs := Candidates(Tokens(jd));
      Count(cs, r) > Count(cs, c) || (Count(cs, r) == Count(cs, c) && |r| >= |c|)
  {
    var words := Tokens(jd);
    assert words != [];
    RankedTop(words, topK, c, r);
  }

  /** The ranking-level half of ExtractSkillsTop. */
  lemma RankedTop(words: seq<string>, topK: int, c: string, r: string)
    requires c in Candidates(words)
    requires var top := Keys(Sorting.Prefix(RankedPhrases(words), topK)); c !in top && r in top
    ensures var cs := Candidates(words);
      Count(cs, r) > Count(cs, c) || (Count(cs, r) == Count(cs, c) && |r| >= |c|)
  {
    var cs := Candidates(words);
    var f := Freq(cs);
    var ranked := RankedPhrases(words);
    var top := Keys(Sorting.Prefix(ranked, topK));
    // the entry of c in the frequency table, and its place in the ranking
    var k := FreqIndex(cs, c);
    var j := RankIndex(f, k);
    var i :| 0 <= i < |top| && top[i] == r;
    PrefixKeys(ranked, topK);
    assert |top| <= j;  // else c would be top[j]
    RankedPair(words, i, j);
  }

  /** Every candidate has an entry in the frequency table. */
  lemma FreqIndex(cs: seq<string>, c: string) returns (k: int)
    requires c in cs
    ensures 0 <= k < |Freq(cs)| && Freq(cs)[k].0 == c
  {
    FreqKeys(cs);
    DedupSpec(cs);
    assert c in Keys(Freq(cs));
    k :| 0 <= k < |Freq(cs)| && Keys(Freq(cs))[k] == c;
  }

  /** Ranking a table drops none of its entries. */
  lemma RankIndex(f: Dict<string, int>, k: int) returns (j: int)
    requires 0 <= k < |f|
    ensures 0 <= j < |Rank(f)| && Rank(f)[j] == f[k]
  {
    Sorting.SortDescMembers(f, RankKey(MaxLen(f) + 1));
    assert f[k] in Rank(f);
    j :| 0 <= j < |Rank(f)| && Rank(f)[j] == f[k];
  }

  /** Two ranked entries, the earlier one first in (frequency, length). */
  lemma RankedPair(words: seq<string>, i: int, j: int)
    requires 0 <= i < j < |RankedPhrases(words)|
    ensures var p, q, cs := RankedPhrases(words)[i], RankedPhrases(words)[j], Candidates(words);
      p.1 == Count(cs, p.0) && q.1 == Count(cs, q.0)
      && (p.1 > q.1 || (p.1 == q.1 && |p.0| >= |q.0|))
  {
    RankedOrder(words);
    RankedEntries(words);
  }

  /** Ranking is stable: entries with one sort key keep their order in the table. */
  lemma RankStable(f: Dict<string, int>, v: real)
    ensures Sorting.KeyFilter(Rank(f), RankKey(MaxLen(f) + 1), v) == Sorting.KeyFilter(f, RankKey(MaxLen(f) + 1), v)
  {
    Sorting.SortDescStable(f, RankKey(MaxLen(f) + 1), v);
  }

  /** extract_skills_from_jd with its frequency loop. */
  method ExtractSkillsFromJd(jdText: string, topK: int) returns (phrases: seq<string>)
    ensures phrases == ExtractSkills(jdText, topK)
  {
    var words := Tokens(jdText);
    if words == [] {
      return [];
    }
    var unigrams := Dedup(words);
    var bigrams := Bigrams(words);
    var trigrams := Trigrams(words);
    var candidates := unigrams + bigrams + trigrams;
    assert candidates == Candidates(words);
    var freq := CountFrequencies(candidates);
    var ranked := Rank(freq);
    phrases := Keys(Sorting.Prefix(ranked, topK));
  }

  /** The counting loop of extract_skills_from_jd. */
  method CountFrequencies(candidates: seq<string>) returns (freq: Dict<string, int>)
    ensures freq == Freq(candidates)
  {
    freq := [];
    var i := 0;
    while i < |candidates|
      invariant 0 <= i <= |candidates|
      invariant freq == Freq(candidates[..i])
    {
      var c := candidates[i];
      freq := Put(freq, c, GetOr(freq, c, 0) + 1);
      FreqStep(candidates, i);
      i := i + 1;
    }
    assert candidates[..i] == candidates;
  }

  // ================================================================ two_tower_recommendation

  /** A text with its similarity to the job description. */
  function SimOf(p: (string, real)): real
  {
    p.1
  }

  /** list(zip(user_experiences, similarities)). */
  function Similarities(jd: string, exps: seq<string>, sim: (string, string) -> real): (r: seq<(string, real)>)
    ensures |r| == |exps|
  {
    seq(|exps|, i requires 0 <= i < |exps| => (exps[i], sim(jd, exps[i])))
  }

  /** two_tower_recommendation: the texts sorted by similarity, descending, cut to top_n. */
  function TwoTower(jd: string, exps: seq<string>, topN: int, sim: (string, string) -> real): seq<(string, real)>
  {
    Sorting.Prefix(Sorting.SortDesc(Similarities(jd, exps, sim), SimOf), topN)
  }

  /** min(top_n, number of texts) texts of the input, each with its own similarity, best first. */
  lemma TwoTowerSpec(jd: string, exps: seq<string>, topN: int, sim: (string, string) -> real)
    ensures var r := TwoTower(jd, exps, topN, sim);
      && (topN >= 0 ==> |r| == if topN < |exps| then topN else |exps|)
      && Sorting.SortedDesc(r, SimOf)
      && forall i :: 0 <= i < |r| ==> r[i].0 in exps && r[i].1 == sim(jd, r[i].0)
  {
    var scored := Similarities(jd, exps, sim);
    var sorted := Sorting.SortDesc(scored, SimOf);
    var r := TwoTower(jd, exps, topN, sim);
    Sorting.SortDescSpec(scored, SimOf);
    Sorting.SortDescMembers(scored, SimOf);
    assert forall i :: 0 <= i < |r| ==> r[i] == sorted[i];
    forall i | 0 <= i < |r| ensures r[i].0 in exps && r[i].1 == sim(jd, r[i].0) {
      assert sorted[i] in scored;
      var k :| 0 <= k < |scored| && scored[k] == sorted[i];
    }
  }

  /** A text that is left out is no more similar than any text that is kept. */
  lemma TwoTowerBest(jd: string, exps: seq<string>, topN: int, sim: (string, string) -> real, k: int, i: int)
    requires 0 <= k < |exps|
    requires 0 <= i < |TwoTower(jd, exps, topN, sim)|
    requires (exps[k], sim(jd, exps[k])) !in TwoTower(jd, exps, topN, sim)
    ensures sim(jd, exps[k]) <= TwoTower(jd, exps, topN, sim)[i].1
  {
    var scored := Similarities(jd, exps, sim);
    var sorted := Sorting.SortDesc(scored, SimOf);
    var r := TwoTower(jd, exps, topN, sim);
    Sorting.SortDescSpec(scored, SimOf);
    Sorting.SortDescMembers(scored, SimOf);
    assert scored[k] in scored;
    var j :| 0 <= j < |sorted| && sorted[j] == scored[k];
    assert forall j' :: 0 <= j' < |r| ==> r[j'] == sorted[j'] && r[j'] in r;
    assert j >= |r|;
    assert SimOf(sorted[i]) >= SimOf(sorted[j]);
  }

  // ================================================================ _get_semantic_recommendations

  /** The mapping key of a bullet: its normalised text. */
  function BulletKey(b: Bullet): string
  {
    Preprocess(BulletText(b))
  }

  function BulletKeys(bs: seq<Bullet>): (r: seq<string>)
    ensures |r| == |bs|
    ensures forall i :: 0 <= i < |bs| ==> r[i] == BulletKey(bs[i])
  {
    seq(|bs|, i requires 0 <= i < |bs| => BulletKey(bs[i]))
  }

  /** {preprocess_text(b.get('bullet', '')): b for b in bullets}. */
  function Mapping(bs: seq<Bullet>): Dict<string, Bullet>
    decreases |bs|
  {
    if bs == [] then [] else Put(Mapping(bs[..|bs| - 1]), BulletKey(bs[|bs| - 1]), bs[|bs| - 1])
  }

  /** The index of the last bullet with the given normalised text. */
  function LastWithKey(bs: seq<Bullet>, t: string): (r: Option<nat>)
    ensures r.Some? ==> r.value < |bs| && BulletKey(bs[r.value]) == t
  {
    LastIndex(BulletKeys(bs), t)
  }

  /** The keys are the normalised texts in order of first occurrence, each once. */
  lemma {:induction false} MappingKeys(bs: seq<Bullet>)
    ensures Keys(Mapping(bs)) == Dedup(BulletKeys(bs))
    ensures DistinctKeys(Mapping(bs))
    decreases |bs|
  {
    if bs != [] {
      var init := bs[..|bs| - 1];
      var m := Mapping(init);
      MappingKeys(init);
      PutKeys(m, BulletKey(bs[|bs| - 1]), bs[|bs| - 1]);
      PutDistinct(m, BulletKey(bs[|bs| - 1]), bs[|bs| - 1]);
      assert BulletKeys(bs)[..|bs| - 1] == BulletKeys(init);
    }
  }

  /** A later bullet with the same normalised text replaces an earlier one. */
  lemma {:induction false} MappingGet(bs: seq<Bullet>, t: string)
    ensures Get(Mapping(bs), t) == if LastWithKey(bs, t).Some? then Some(bs[LastWithKey(bs, t).value]) else None
    decreases |bs|
  {
    if bs != [] {
      var init, b := bs[..|bs| - 1], bs[|bs| - 1];
      MappingGet(init, t);
      PutGet(Mapping(init), BulletKey(b), b, t);
      var ks := BulletKeys(bs);
      assert ks[..|ks| - 1] == BulletKeys(init);
      assert LastIndex(ks, t) == if ks[|ks| - 1] == t then Some(|ks| - 1) else LastIndex(BulletKeys(init), t);
    }
  }

  /** A candidate as _get_semantic_recommendations keeps it: bullet, score, matched phrases. */
  datatype Match = Match(bullet: Bullet, score: real, phrases: seq<string>)

  /** What one recommendation contributes: its mapped bullet when that is a non-empty record, score times 100. */
  function PickOne(rec: (string, real), original: Option<Bullet>): (r: seq<Match>)
    ensures |r| <= 1
  {
    if original.Some? && Truthy(original.value) then [Match(original.value, rec.1 * 100.0, [])] else []
  }

  /** The loop over the recommendations. */
  function Pick(recs: seq<(string, real)>, mapping: Dict<string, Bullet>): (r: seq<Match>)
    ensures |r| <= |recs|
    decreases |recs|
  {
    if recs == [] then [] else Pick(recs[..|recs| - 1], mapping) + PickOne(recs[|recs| - 1], Get(mapping, recs[|recs| - 1].0))
  }

  /** Every pick is the non-empty record mapped from some recommendation, with that score times 100. */
  lemma {:induction false} PickMembers(recs: seq<(string, real)>, mapping: Dict<string, Bullet>)
    ensures forall k :: 0 <= k < |Pick(recs, mapping)| ==>
      (Truthy(Pick(recs, mapping)[k].bullet) && Pick(recs, mapping)[k].phrases == []
       && exists i :: 0 <= i < |recs| && Get(mapping, recs[i].0) == Some(Pick(recs, mapping)[k].bullet)
            && Pick(recs, mapping)[k].score == recs[i].1 * 100.0)
    decreases |recs|
  {
    if recs != [] {
      var init := recs[..|recs| - 1];
      var r0 := Pick(init, mapping);
      var r := Pick(recs, mapping);
      PickMembers(init, mapping);
      forall k | 0 <= k < |r|
        ensures exists i :: 0 <= i < |recs| && Get(mapping, recs[i].0) == Some(r[k].bullet) && r[k].score == recs[i].1 * 100.0
      {
        if k < |r0| {
          assert r[k] == r0[k];
          var i :| 0 <= i < |init| && Get(mapping, init[i].0) == Some(r0[k].bullet) && r0[k].score == init[i].1 * 100.0;
          assert init[i] == recs[i];
        } else {
          assert Get(mapping, recs[|recs| - 1].0) == Some(r[k].bullet);
        }
      }
    }
  }

  lemma PickStep(recs: seq<(string, real)>, i: int, mapping: Dict<string, Bullet>)
    requires 0 <= i < |recs|
    ensures Pick(recs[..i + 1], mapping) == Pick(recs[..i], mapping) + PickOne(recs[i], Get(mapping, recs[i].0))
  {
    var s := recs[..i + 1];
    calc {
      Pick(s, mapping);
      Pick(s[..|s| - 1], mapping) + PickOne(s[|s| - 1], Get(mapping, s[|s| - 1].0));
      { assert s[..|s| - 1] == recs[..i]; }
      Pick(recs[..i], mapping) + PickOne(recs[i], Get(mapping, recs[i].0));
    }
  }

  /** Picking keeps the order of the recommendations. */
  lemma {:induction false} PickSorted(recs: seq<(string, real)>, mapping: Dict<string, Bullet>)
    requires Sorting.SortedDesc(recs, SimOf)
    ensures Sorting.SortedDesc(Pick(recs, mapping), ScoreOf)
    decreases |recs|
  {
    if recs != [] {
      var init := recs[..|recs| - 1];
      var r := Pick(init, mapping);
      assert Sorting.SortedDesc(init, SimOf);
      PickSorted(init, mapping);
      PickMembers(init, mapping);
      var last := recs[|recs| - 1];
      forall k | 0 <= k < |r| ensures r[k].score >= last.1 * 100.0 {
        var i :| 0 <= i < |init| && Get(mapping, init[i].0) == Some(r[k].bullet) && r[k].score == init[i].1 * 100.0;
        assert SimOf(recs[i]) >= SimOf(last);
      }
    }
  }

  /** Every recommendation whose text maps to a non-empty record is kept. */
  lemma {:induction false} PickAll(recs: seq<(string, real)>, mapping: Dict<string, Bullet>)
    requires forall i :: 0 <= i < |recs| ==> Get(mapping, recs[i].0).Some? && Truthy(Get(mapping, recs[i].0).value)
    ensures |Pick(recs, mapping)| == |recs|
    decreases |recs|
  {
    if recs != [] {
      PickAll(recs[..|recs| - 1], mapping);
    }
  }

  function ScoreOf(m: Match): real
  {
    m.score
  }

  /** _get_semantic_recommendations. */
  function Semantic(bullets: seq<Bullet>, jd: string, topN: int, sim: (string, string) -> real): seq<Match>
  {
    var mapping := Mapping(bullets);
    Pick(TwoTower(jd, Keys(mapping), topN, sim), mapping)
  }

  /** At most top_n matches, at most one per distinct normalised text, best first. */
  lemma SemanticSpec(bullets: seq<Bullet>, jd: string, topN: int, sim: (string, string) -> real)
    ensures var r := Semantic(bullets, jd, topN, sim);
      && (topN >= 0 ==> |r| <= topN)
      && |r| <= |Dedup(BulletKeys(bullets))|
      && Sorting.SortedDesc(r, ScoreOf)
  {
    var mapping := Mapping(bullets);
    MappingKeys(bullets);
    TwoTowerSpec(jd, Keys(mapping), topN, sim);
    PickSorted(TwoTower(jd, Keys(mapping), topN, sim), mapping);
  }

  /**
   * Each match is a non-empty input record, the last one with its normalised
   * text, scored 100 times the similarity of that text to the job description.
   */
  lemma SemanticEntries(bullets: seq<Bullet>, jd: string, topN: int, sim: (string, string) -> real)
    ensures var r := Semantic(bullets, jd, topN, sim);
      forall k :: 0 <= k < |r| ==>
        && Truthy(r[k].bullet)
        && r[k].phrases == []
        && r[k].score == 100.0 * sim(jd, BulletKey(r[k].bullet))
        && LastWithKey(bullets, BulletKey(r[k].bullet)).Some?
        && bullets[LastWithKey(bullets, BulletKey(r[k].bullet)).value] == r[k].bullet
  {
    var mapping := Mapping(bullets);
    var recs := TwoTower(jd, Keys(mapping), topN, sim);
    var r := Pick(recs, mapping);
    TwoTowerSpec(jd, Keys(mapping), topN, sim);
    PickMembers(recs, mapping);
    forall k | 0 <= k < |r|
      ensures r[k].score == 100.0 * sim(jd, BulletKey(r[k].bullet))
      ensures LastWithKey(bullets, BulletKey(r[k].bullet)).Some?
      ensures bullets[LastWithKey(bullets, BulletKey(r[k].bullet)).value] == r[k].bullet
    {
      var i :| 0 <= i < |recs| && Get(mapping, recs[i].0) == Some(r[k].bullet) && r[k].score == recs[i].1 * 100.0;
      MappingGet(bullets, recs[i].0);
      assert BulletKey(r[k].bullet) == recs[i].0;
    }
  }

  /** With only non-empty records, exactly min(top_n, distinct texts) matches come back. */
  lemma SemanticComplete(bullets: seq<Bullet>, jd: string, topN: int, sim: (string, string) -> real)
    requires forall i :: 0 <= i < |bullets| ==> Truthy(bullets[i])
    requires topN >= 0
    ensures var n := |Dedup(BulletKeys(bullets))|;
      |Semantic(bullets, jd, topN, sim)| == if topN < n then topN else n
  {
    var mapping := Mapping(bullets);
    var recs := TwoTower(jd, Keys(mapping), topN, sim);
    MappingKeys(bullets);
    TwoTowerSpec(jd, Keys(mapping), topN, sim);
    forall i | 0 <= i < |recs| ensures Get(mapping, recs[i].0).Some? && Truthy(Get(mapping, recs[i].0).value) {
      MappingGet(bullets, recs[i].0);
      GetSpec(mapping, recs[i].0);
    }
    PickAll(recs, mapping);
  }

  /** _get_semantic_recommendations with its loop. */
  method GetSemanticRecommendations(bullets: seq<Bullet>, jd: string, topN: int, sim: (string, string) -> real)
    returns (results: seq<Match>)
    ensures results == Semantic(bullets, jd, topN, sim)
  {
    var mapping := Mapping(bullets);
    var recommendations := TwoTower(jd, Keys(mapping), topN, sim);
    results := PickMatches(recommendations, mapping);
  }

  /** The loop of _get_semantic_recommendations over the two-tower recommendations. */
  method PickMatches(recommendations: seq<(string, real)>, mapping: Dict<string, Bullet>) returns (results: seq<Match>)
    ensures results == Pick(recommendations, mapping)
  {
    results := [];
    var i := 0;
    while i < |recommendations|
      invariant 0 <= i <= |recommendations|
      invariant results == Pick(recommendations[..i], mapping)
    {
      var rec := recommendations[i];
      var original := Get(mapping, rec.0);
      PickStep(recommendations, i, mapping);
      if original.Some? && Truthy(original.value) {
        results := results + [Match(original.value, rec.1 * 100.0, [])];
      }
      i := i + 1;
    }
    assert recommendations[..i] == recommendations;
  }

  // ================================================================ _apply_cross_encoder_reranking

  /** One match rescored by the cross-encoder on (job description, normalised text), times 100. */
  function Rescore(m: Match, jd: string, ce: (string, string) -> real): Match
  {
    Match(m.bullet, ce(jd, BulletKey(m.bullet)) * 100.0, m.phrases)
  }

  /** The cross-encoder loop over all matches. */
  function CrossScores(results: seq<Match>, jd: string, ce: (string, string) -> real): (r: seq<Match>)
    ensures |r| == |results|
    decreases |results|
  {
    if results == [] then [] else CrossScores(results[..|results| - 1], jd, ce) + [Rescore(results[|results| - 1], jd, ce)]
  }

  /** min(score for _, score, _ in s). */
  function MinScore(s: seq<Match>): (m: real)
    requires s != []
    ensures forall i :: 0 <= i < |s| ==> m <= s[i].score
    ensures exists i :: 0 <= i < |s| && s[i].score == m
    decreases |s|
  {
    if |s| == 1 then s[0].score
    else
      var m := MinScore(s[1..]);
      assert forall i :: 1 <= i < |s| ==> s[i] == s[1..][i - 1];
      if s[0].score <= m then s[0].score else m
  }

  /** One match shifted so that the minimum score lo becomes 1. */
  function Shift(m: Match, lo: real): Match
  {
    Match(m.bullet, m.score - lo + 1.0, m.phrases)
  }

  /** score - min_score + 1 for every match. */
  function Normalise(s: seq<Match>, lo: real): (r: seq<Match>)
    ensures |r| == |s|
    decreases |s|
  {
    if s == [] then [] else Normalise(s[..|s| - 1], lo) + [Shift(s[|s| - 1], lo)]
  }

  lemma {:induction false} NormaliseEntries(s: seq<Match>, lo: real)
    ensures forall i :: 0 <= i < |s| ==> Normalise(s, lo)[i] == Shift(s[i], lo)
    decreases |s|
  {
    if s != [] {
      NormaliseEntries(s[..|s| - 1], lo);
    }
  }

  /** _apply_cross_encoder_reranking. */
  function Rerank(results: seq<Match>, jd: string, ce: (string, string) -> real): seq<Match>
  {
    var sorted := Sorting.SortDesc(CrossScores(results, jd, ce), ScoreOf);
    if sorted == [] then [] else Normalise(sorted, MinScore(sorted))
  }

  function BulletOf(m: Match): Bullet
  {
    m.bullet
  }

  /** The cross-encoder changes only scores: bullets and phrases stay in place. */
  lemma {:induction false} CrossScoresEntries(results: seq<Match>, jd: string, ce: (string, string) -> real)
    ensures forall i :: 0 <= i < |results| ==> CrossScores(results, jd, ce)[i] == Rescore(results[i], jd, ce)
    decreases |results|
  {
    if results != [] {
      var init := results[..|results| - 1];
      CrossScoresEntries(init, jd, ce);
      var r0 := CrossScores(init, jd, ce);
      assert CrossScores(results, jd, ce) == r0 + [Rescore(results[|results| - 1], jd, ce)];
      forall i | 0 <= i < |results| ensures CrossScores(results, jd, ce)[i] == Rescore(results[i], jd, ce) {
        if i < |init| {
          assert CrossScores(results, jd, ce)[i] == r0[i];
          assert init[i] == results[i];
        } else {
          assert CrossScores(results, jd, ce)[i] == Rescore(results[|results| - 1], jd, ce);
        }
      }
    }
  }

  /** Shifting by any floor lo keeps the order of the scores. */
  lemma NormaliseSorted(s: seq<Match>, lo: real)
    requires Sorting.SortedDesc(s, ScoreOf)
    ensures Sorting.SortedDesc(Normalise(s, lo), ScoreOf)
  {
    var r := Normalise(s, lo);
    NormaliseEntries(s, lo);
    forall i, j | 0 <= i < j < |r| ensures ScoreOf(r[i]) >= ScoreOf(r[j]) {
      assert ScoreOf(s[i]) >= ScoreOf(s[j]);
    }
  }

  /** Shifting a sorted list so that its minimum becomes 1 keeps it sorted and puts every score at 1 or above. */
  lemma NormaliseSpec(s: seq<Match>)
    requires s != []
    requires Sorting.SortedDesc(s, ScoreOf)
    ensures Sorting.SortedDesc(Normalise(s, MinScore(s)), ScoreOf)
    ensures forall i :: 0 <= i < |s| ==> Normalise(s, MinScore(s))[i].score >= 1.0
    ensures exists i :: 0 <= i < |s| && Normalise(s, MinScore(s))[i].score == 1.0
  {
    var lo := MinScore(s);
    NormaliseSorted(s, lo);
    NormaliseEntries(s, lo);
    var k :| 0 <= k < |s| && s[k].score == lo;
    assert Normalise(s, lo)[k].score == 1.0;
  }

  /** As many matches as came in, best first, the lowest at exactly 1 and none below. */
  lemma RerankSpec(results: seq<Match>, jd: string, ce: (string, string) -> real)
    ensures |Rerank(results, jd, ce)| == |results|
    ensures Sorting.SortedDesc(Rerank(results, jd, ce), ScoreOf)
    ensures Rerank(results, jd, ce) != [] ==>
      && (forall i :: 0 <= i < |Rerank(results, jd, ce)| ==> Rerank(results, jd, ce)[i].score >= 1.0)
      && (exists i :: 0 <= i < |Rerank(results, jd, ce)| && Rerank(results, jd, ce)[i].score == 1.0)
  {
    var cross := CrossScores(results, jd, ce);
    var sorted := Sorting.SortDesc(cross, ScoreOf);
    Sorting.SortDescSorted(cross, ScoreOf);
    if sorted != [] {
      NormaliseSpec(sorted);
    }
  }

  /** The shift keeps the gaps between the sorted cross-encoder scores. */
  lemma RerankGaps(results: seq<Match>, jd: string, ce: (string, string) -> real, i: int, j: int)
    requires 0 <= i < |results| && 0 <= j < |results|
    ensures var sorted := Sorting.SortDesc(CrossScores(results, jd, ce), ScoreOf);
      Rerank(results, jd, ce)[i].score - Rerank(results, jd, ce)[j].score == sorted[i].score - sorted[j].score
  {
    var sorted := Sorting.SortDesc(CrossScores(results, jd, ce), ScoreOf);
    NormaliseEntries(sorted, MinScore(sorted));
  }

  /** Every re-ranked match is some incoming match with its own cross-encoder score, shifted by the lowest of those scores. */
  lemma RerankEntries(results: seq<Match>, jd: string, ce: (string, string) -> real)
    ensures var sorted := Sorting.SortDesc(CrossScores(results, jd, ce), ScoreOf);
      forall i :: 0 <= i < |Rerank(results, jd, ce)| ==>
        exists j :: 0 <= j < |results| && Rerank(results, jd, ce)[i] == Shift(Rescore(results[j], jd, ce), MinScore(sorted))
  {
    var sorted := Sorting.SortDesc(CrossScores(results, jd, ce), ScoreOf);
    forall i | 0 <= i < |Rerank(results, jd, ce)|
      ensures exists j :: 0 <= j < |results| && Rerank(results, jd, ce)[i] == Shift(Rescore(results[j], jd, ce), MinScore(sorted))
    {
      var j := RerankSource(results, jd, ce, i);
    }
  }

  /** The incoming match behind the i-th re-ranked one. */
  lemma RerankSource(results: seq<Match>, jd: string, ce: (string, string) -> real, i: int) returns (j: int)
    requires 0 <= i < |Rerank(results, jd, ce)|
    ensures var sorted := Sorting.SortDesc(CrossScores(results, jd, ce), ScoreOf);
      sorted != [] && 0 <= j < |results| && Rerank(results, jd, ce)[i] == Shift(Rescore(results[j], jd, ce), MinScore(sorted))
  {
    var cross := CrossScores(results, jd, ce);
    var sorted := Sorting.SortDesc(cross, ScoreOf);
    assert sorted != [];
    var lo := MinScore(sorted);
    assert Rerank(results, jd, ce) == Normalise(sorted, lo);
    NormaliseEntries(sorted, lo);
    j := SortSource(cross, ScoreOf, i);
    CrossScoresEntries(results, jd, ce);
  }

  /** The element of the input that the sort put at position i. */
  lemma SortSource(s: seq<Match>, key: Match -> real, i: int) returns (j: int)
    requires 0 <= i < |Sorting.SortDesc(s, key)|
    ensures 0 <= j < |s| && s[j] == Sorting.SortDesc(s, key)[i]
  {
    Sorting.SortDescMembers(s, key);
    assert Sorting.SortDesc(s, key)[i] in s;
    j :| 0 <= j < |s| && s[j] == Sorting.SortDesc(s, key)[i];
  }

  /** Re-ranking keeps every re-ranked bullet as often as it came in. */
  lemma RerankBullets(results: seq<Match>, jd: string, ce: (string, string) -> real)
    ensures multiset(Sorting.MapSeq(Rerank(results, jd, ce), BulletOf)) == multiset(Sorting.MapSeq(results, BulletOf))
  {
    var cross := CrossScores(results, jd, ce);
    var sorted := Sorting.SortDesc(cross, ScoreOf);
    CrossScoresBullets(results, jd, ce);
    Sorting.SortDescMap(cross, ScoreOf, BulletOf);
    if sorted != [] {
      NormaliseBullets(sorted, MinScore(sorted));
    }
  }

  /** The cross-encoder keeps the bullets in place. */
  lemma CrossScoresBullets(results: seq<Match>, jd: string, ce: (string, string) -> real)
    ensures Sorting.MapSeq(CrossScores(results, jd, ce), BulletOf) == Sorting.MapSeq(results, BulletOf)
  {
    CrossScoresEntries(results, jd, ce);
  }

  /** The shift keeps the bullets in place. */
  lemma NormaliseBullets(s: seq<Match>, lo: real)
    ensures Sorting.MapSeq(Normalise(s, lo), BulletOf) == Sorting.MapSeq(s, BulletOf)
  {
    NormaliseEntries(s, lo);
  }

  lemma CrossScoresStep(results: seq<Match>, i: int, jd: string, ce: (string, string) -> real)
    requires 0 <= i < |results|
    ensures CrossScores(results[..i + 1], jd, ce) == CrossScores(results[..i], jd, ce) + [Rescore(results[i], jd, ce)]
  {
    var s := results[..i + 1];
    calc {
      CrossScores(s, jd, ce);
      CrossScores(s[..|s| - 1], jd, ce) + [Rescore(s[|s| - 1], jd, ce)];
      { assert s[..|s| - 1] == results[..i]; }
      CrossScores(results[..i], jd, ce) + [Rescore(results[i], jd, ce)];
    }
  }

  lemma NormaliseStep(s: seq<Match>, j: int, lo: real)
    requires 0 <= j < |s|
    ensures Normalise(s[..j + 1], lo) == Normalise(s[..j], lo) + [Shift(s[j], lo)]
  {
    var p := s[..j + 1];
    calc {
      Normalise(p, lo);
      Normalise(p[..|p| - 1], lo) + [Shift(p[|p| - 1], lo)];
      { assert p[..|p| - 1] == s[..j]; }
      Normalise(s[..j], lo) + [Shift(s[j], lo)];
    }
  }

  /** _apply_cross_encoder_reranking with its loops. */
  method ApplyCrossEncoderReranking(results: seq<Match>, jd: string, ce: (string, string) -> real)
    returns (reranked: seq<Match>)
    ensures reranked == Rerank(results, jd, ce)
  {
    var crossResults: seq<Match> := [];
    var i := 0;
    while i < |results|
      invariant 0 <= i <= |results|
      invariant crossResults == CrossScores(results[..i], jd, ce)
    {
      var m := results[i];
      crossResults := crossResults + [Match(m.bullet, ce(jd, BulletKey(m.bullet)) * 100.0, m.phrases)];
      CrossScoresStep(results, i, jd, ce);
      i := i + 1;
    }
    assert results[..i] == results;
    var sorted := Sorting.SortDesc(crossResults, ScoreOf);
    assert sorted == Sorting.SortDesc(CrossScores(results, jd, ce), ScoreOf);
    if sorted == [] {
      return [];
    }
    var minScore := MinScore(sorted);
    reranked := NormaliseScores(sorted, minScore);
  }

  /** The normalisation loop of _apply_cross_encoder_reranking: score - min_score + 1. */
  method NormaliseScores(sorted: seq<Match>, minScore: real) returns (normalised: seq<Match>)
    ensures normalised == Normalise(sorted, minScore)
  {
    normalised := [];
    var j := 0;
    while j < |sorted|
      invariant 0 <= j <= |sorted|
      invariant normalised == Normalise(sorted[..j], minScore)
    {
      var m := sorted[j];
      normalised := normalised + [Match(m.bullet, m.score - minScore + 1.0, m.phrases)];
      NormaliseStep(sorted, j, minScore);
      j := j + 1;
    }
    assert sorted[..j] == sorted;
  }

  // ================================================================ _apply_priority_boosting

  /** extract_skills_from_jd's default top_k, as _apply_priority_boosting calls it. */
  const CandidateCount := 40
  /** How many of the most similar phrases are considered per bullet. */
  const PhraseCount := 3
  /** The similarity a considered phrase must exceed to be reported. */
  const PhraseFloor: real := 0.1
  /** Points per must-have phrase found in a bullet. */
  const MustBoost := 20
  /** Points per nice-to-have phrase found in a bullet. */
  const NiceBoost := 10

  /** A boosted result: the bullet, its integer score and the job-description phrases it matched. */
  datatype Boosted = Boosted(bullet: Bullet, score: int, phrases: seq<string>)

  /** How many of the priority phrases occur in the text, both lower-cased. */
  function Hits(phrases: seq<string>, text: string): nat
    decreases |phrases|
  {
    if phrases == [] then 0
    else Hits(phrases[..|phrases| - 1], text) + (if Contains(Lower(text), Lower(phrases[|phrases| - 1])) then 1 else 0)
  }

  /** The (phrase, similarity) pairs whose similarity exceeds the floor, in order. */
  function Confident(top: seq<(string, real)>): seq<(string, real)>
    decreases |top|
  {
    if top == [] then []
    else Confident(top[..|top| - 1]) + (if top[|top| - 1].1 > PhraseFloor then [top[|top| - 1]] else [])
  }

  function TextOf(p: (string, real)): string
  {
    p.0
  }

  /** The phrases reported for a bullet text: its most similar candidates above the floor, best first. */
  function MatchedPhrases(text: string, cands: seq<string>, sim: (string, string) -> real): seq<string>
  {
    Sorting.MapSeq(Confident(TwoTower(text, cands, PhraseCount, sim)), TextOf)
  }

  /** One re-ranked match with its priority boost and its matched phrases. */
  function BoostOne(m: Match, cands: seq<string>, musts: seq<string>, nices: seq<string>, sim: (string, string) -> real): Boosted
  {
    var text := BulletKey(m.bullet);
    var adjusted := m.score + (MustBoost * Hits(musts, text)) as real + (NiceBoost * Hits(nices, text)) as real;
    Boosted(m.bullet, Trunc(adjusted), MatchedPhrases(text, cands, sim))
  }

  /** The loop of _apply_priority_boosting over the re-ranked matches. */
  function BoostAll(results: seq<Match>, cands: seq<string>, musts: seq<string>, nices: seq<string>, sim: (string, string) -> real): (r: seq<Boosted>)
    ensures |r| == |results|
    decreases |results|
  {
    if results == [] then []
    else BoostAll(results[..|results| - 1], cands, musts, nices, sim) + [BoostOne(results[|results| - 1], cands, musts, nices, sim)]
  }

  function BoostScore(b: Boosted): real
  {
    b.score as real
  }

  function BoostedBullet(b: Boosted): Bullet
  {
    b.bullet
  }

  /** _apply_priority_boosting: boost every match, then sort by the integer score, descending and stable. */
  function PriorityBoost(results: seq<Match>, jd: string, musts: seq<string>, nices: seq<string>, sim: (string, string) -> real): seq<Boosted>
  {
    Sorting.SortDesc(BoostAll(results, ExtractSkills(jd, CandidateCount), musts, nices, sim), BoostScore)
  }

  /** The floor keeps exactly the pairs above it, in their order. */
  lemma ConfidentSpec(top: seq<(string, real)>)
    ensures forall x :: x in Confident(top) <==> x in top && x.1 > PhraseFloor
    ensures |Confident(top)| <= |top|
    ensures Sorting.SortedDesc(top, SimOf) ==> Sorting.SortedDesc(Confident(top), SimOf)
  {
    forall x ensures x in Confident(top) <==> x in top && x.1 > PhraseFloor {
      ConfidentMembers(top, x);
    }
    ConfidentLength(top);
    if Sorting.SortedDesc(top, SimOf) {
      ConfidentSorted(top);
    }
  }

  lemma {:induction false} ConfidentMembers(top: seq<(string, real)>, x: (string, real))
    ensures x in Confident(top) <==> x in top && x.1 > PhraseFloor
    decreases |top|
  {
    if top != [] {
      var init := top[..|top| - 1];
      ConfidentMembers(init, x);
      assert top == init + [top[|top| - 1]];
    }
  }

  lemma {:induction false} ConfidentLength(top: seq<(string, real)>)
    ensures |Confident(top)| <= |top|
    decreases |top|
  {
    if top != [] {
      ConfidentLength(top[..|top| - 1]);
    }
  }

  lemma {:induction false} ConfidentSorted(top: seq<(string, real)>)
    requires Sorting.SortedDesc(top, SimOf)
    ensures Sorting.SortedDesc(Confident(top), SimOf)
    decreases |top|
  {
    if top != [] {
      var init, last := top[..|top| - 1], top[|top| - 1];
      assert Sorting.SortedDesc(init, SimOf);
      ConfidentSorted(init);
      var c := Confident(init);
      forall x | x in c ensures SimOf(x) >= SimOf(last) {
        ConfidentMembers(init, x);
        var i :| 0 <= i < |init| && init[i] == x;
        assert top[i] == x;
      }
      SortedSnoc(c, last);
    }
  }

  /** Appending an element no greater than any before keeps a list sorted. */
  lemma SortedSnoc(c: seq<(string, real)>, x: (string, real))
    requires Sorting.SortedDesc(c, SimOf)
    requires forall y :: y in c ==> SimOf(y) >= SimOf(x)
    ensures Sorting.SortedDesc(c + [x], SimOf) && Sorting.SortedDesc(c + [], SimOf)
  {
    var s := c + [x];
    forall i, j | 0 <= i < j < |s| ensures SimOf(s[i]) >= SimOf(s[j]) {
      assert s[i] == c[i] && c[i] in c;
      if j < |c| { assert s[j] == c[j]; }
    }
    assert c + [] == c;
  }

  /** Adding whole points to a non-negative score adds them to its truncation. */
  lemma TruncAdd(x: real, n: int)
    requires x >= 0.0 && n >= 0
    ensures Trunc(x + n as real) == Trunc(x) + n
  {
    var a := Trunc(x);
    assert a as real <= x < a as real + 1.0;
    assert (a + n) as real <= x + n as real < (a + n) as real + 1.0;
  }

  /** What one boosted match is: the same bullet, its exact boost, and its matched phrases. */
  predicate BoostedFrom(b: Boosted, m: Match, cands: seq<string>, musts: seq<string>, nices: seq<string>, sim: (string, string) -> real)
  {
    var text := BulletKey(m.bullet);
    && b.bullet == m.bullet
    && (m.score >= 0.0 ==> b.score == Trunc(m.score) + MustBoost * Hits(musts, text) + NiceBoost * Hits(nices, text))
    && |b.phrases| <= PhraseCount
    && (forall k :: 0 <= k < |b.phrases| ==> b.phrases[k] in cands && sim(text, b.phrases[k]) > PhraseFloor)
    && (forall j, k :: 0 <= j < k < |b.phrases| ==> sim(text, b.phrases[j]) >= sim(text, b.phrases[k]))
    && (forall p :: p in TwoTower(text, cands, PhraseCount, sim) && p.1 > PhraseFloor ==> p.0 in b.phrases)
  }

  /**
   * One match keeps its bullet; its score is the truncated base plus 20 per
   * must-have and 10 per nice-to-have phrase found; it reports at most three
   * candidates, each above the floor, most similar first, and every one of
   * the three most similar that is above the floor.
   */
  lemma BoostOneSpec(m: Match, cands: seq<string>, musts: seq<string>, nices: seq<string>, sim: (string, string) -> real)
    ensures BoostedFrom(BoostOne(m, cands, musts, nices, sim), m, cands, musts, nices, sim)
  {
    var text := BulletKey(m.bullet);
    MatchedPhrasesSpec(text, cands, sim);
    if m.score >= 0.0 {
      TruncAdd(m.score, MustBoost * Hits(musts, text) + NiceBoost * Hits(nices, text));
    }
  }

  /** The matched phrases: at most three candidates above the floor, most similar first, and all such of the top three. */
  lemma MatchedPhrasesSpec(text: string, cands: seq<string>, sim: (string, string) -> real)
    ensures |MatchedPhrases(text, cands, sim)| <= PhraseCount
    ensures forall k :: 0 <= k < |MatchedPhrases(text, cands, sim)| ==>
      MatchedPhrases(text, cands, sim)[k] in cands && sim(text, MatchedPhrases(text, cands, sim)[k]) > PhraseFloor
    ensures forall j, k :: 0 <= j < k < |MatchedPhrases(text, cands, sim)| ==>
      sim(text, MatchedPhrases(text, cands, sim)[j]) >= sim(text, MatchedPhrases(text, cands, sim)[k])
    ensures forall p :: p in TwoTower(text, cands, PhraseCount, sim) && p.1 > PhraseFloor ==> p.0 in MatchedPhrases(text, cands, sim)
  {
    var top := TwoTower(text, cands, PhraseCount, sim);
    var c := Confident(top);
    TwoTowerSpec(text, cands, PhraseCount, sim);
    ConfidentSpec(top);
    forall x | x in c ensures x.0 in cands && x.1 == sim(text, x.0) && x.1 > PhraseFloor {
      var i :| 0 <= i < |top| && top[i] == x;
    }
    PhraseTexts(c, text, cands, sim);
  }

  /** The texts of confident, sorted similarity pairs are candidates above the floor, most similar first. */
  lemma PhraseTexts(c: seq<(string, real)>, text: string, cands: seq<string>, sim: (string, string) -> real)
    requires forall x :: x in c ==> x.0 in cands && x.1 == sim(text, x.0) && x.1 > PhraseFloor
    requires Sorting.SortedDesc(c, SimOf)
    ensures forall k :: 0 <= k < |c| ==> Sorting.MapSeq(c, TextOf)[k] in cands && sim(text, Sorting.MapSeq(c, TextOf)[k]) > PhraseFloor
    ensures forall j, k :: 0 <= j < k < |c| ==> sim(text, Sorting.MapSeq(c, TextOf)[j]) >= sim(text, Sorting.MapSeq(c, TextOf)[k])
    ensures forall x :: x in c ==> x.0 in Sorting.MapSeq(c, TextOf)
  {
    var ps := Sorting.MapSeq(c, TextOf);
    forall k | 0 <= k < |c| ensures ps[k] in cands && sim(text, ps[k]) > PhraseFloor {
      assert c[k] in c;
    }
    forall j, k | 0 <= j < k < |c| ensures sim(text, ps[j]) >= sim(text, ps[k]) {
      assert c[j] in c && c[k] in c;
      assert SimOf(c[j]) >= SimOf(c[k]);
    }
    forall x | x in c ensures x.0 in ps {
      var i :| 0 <= i < |c| && c[i] == x;
      assert ps[i] == x.0;
    }
  }

  lemma {:induction false} BoostAllEntries(results: seq<Match>, cands: seq<string>, musts: seq<string>, nices: seq<string>, sim: (string, string) -> real)
    ensures forall i :: 0 <= i < |results| ==> BoostAll(results, cands, musts, nices, sim)[i] == BoostOne(results[i], cands, musts, nices, sim)
    decreases |results|
  {
    if results != [] {
      var init := results[..|results| - 1];
      BoostAllEntries(init, cands, musts, nices, sim);
      var r0 := BoostAll(init, cands, musts, nices, sim);
      var e := BoostOne(results[|results| - 1], cands, musts, nices, sim);
      assert BoostAll(results, cands, musts, nices, sim) == r0 + [e];
      forall i | 0 <= i < |results| ensures (r0 + [e])[i] == BoostOne(results[i], cands, musts, nices, sim) {
        if i < |init| {
          assert (r0 + [e])[i] == r0[i];
          assert init[i] == results[i];
        }
      }
    }
  }

  lemma BoostAllStep(results: seq<Match>, i: int, cands: seq<string>, musts: seq<string>, nices: seq<string>, sim: (string, string) -> real)
    requires 0 <= i < |results|
    ensures BoostAll(results[..i + 1], cands, musts, nices, sim) == BoostAll(results[..i], cands, musts, nices, sim) + [BoostOne(results[i], cands, musts, nices, sim)]
  {
    var s := results[..i + 1];
    calc {
      BoostAll(s, cands, musts, nices, sim);
      BoostAll(s[..|s| - 1], cands, musts, nices, sim) + [BoostOne(s[|s| - 1], cands, musts, nices, sim)];
      { assert s[..|s| - 1] == results[..i]; }
      BoostAll(results[..i], cands, musts, nices, sim) + [BoostOne(results[i], cands, musts, nices, sim)];
    }
  }

  /** Boosting returns one result per match, sorted by score descending, each the boost of one of the matches. */
  lemma PriorityBoostSpec(results: seq<Match>, jd: string, musts: seq<string>, nices: seq<string>, sim: (string, string) -> real)
    ensures |PriorityBoost(results, jd, musts, nices, sim)| == |results|
    ensures Sorting.SortedDesc(PriorityBoost(results, jd, musts, nices, sim), BoostScore)
    ensures forall k :: 0 <= k < |PriorityBoost(results, jd, musts, nices, sim)| ==>
      exists i :: 0 <= i < |results| && PriorityBoost(results, jd, musts, nices, sim)[k] == BoostOne(results[i], ExtractSkills(jd, CandidateCount), musts, nices, sim)
  {
    var cands := ExtractSkills(jd, CandidateCount);
    var all := BoostAll(results, cands, musts, nices, sim);
    Sorting.SortDescSpec(all, BoostScore);
    assert |multiset(PriorityBoost(results, jd, musts, nices, sim))| == |multiset(all)|;
    SortedBoostsFrom(results, cands, musts, nices, sim);
  }

  /** Every element of the sorted boosts is the boost of one of the matches. */
  lemma SortedBoostsFrom(results: seq<Match>, cands: seq<string>, musts: seq<string>, nices: seq<string>, sim: (string, string) -> real)
    ensures forall k :: 0 <= k < |Sorting.SortDesc(BoostAll(results, cands, musts, nices, sim), BoostScore)| ==>
      exists i :: 0 <= i < |results| && Sorting.SortDesc(BoostAll(results, cands, musts, nices, sim), BoostScore)[k] == BoostOne(results[i], cands, musts, nices, sim)
  {
    var all := BoostAll(results, cands, musts, nices, sim);
    var r := Sorting.SortDesc(all, BoostScore);
    Sorting.SortDescMembers(all, BoostScore);
    BoostAllEntries(results, cands, musts, nices, sim);
    forall k | 0 <= k < |r| ensures exists i :: 0 <= i < |results| && r[k] == BoostOne(results[i], cands, musts, nices, sim) {
      assert r[k] in all;
      var i :| 0 <= i < |all| && all[i] == r[k];
      assert r[k] == BoostOne(results[i], cands, musts, nices, sim);
    }
  }

  /** Boosting keeps every bullet as often as it came in. */
  lemma PriorityBoostBullets(results: seq<Match>, jd: string, musts: seq<string>, nices: seq<string>, sim: (string, string) -> real)
    ensures multiset(Sorting.MapSeq(PriorityBoost(results, jd, musts, nices, sim), BoostedBullet)) == multiset(Sorting.MapSeq(results, BulletOf))
  {
    var cands := ExtractSkills(jd, CandidateCount);
    var all := BoostAll(results, cands, musts, nices, sim);
    Sorting.SortDescMap(all, BoostScore, BoostedBullet);
    BoostAllEntries(results, cands, musts, nices, sim);
    assert Sorting.MapSeq(all, BoostedBullet) == Sorting.MapSeq(results, BulletOf);
  }

  /** Results with equal boosted scores stay in their re-ranked order (list.sort is stable). */
  lemma PriorityBoostStable(results: seq<Match>, jd: string, musts: seq<string>, nices: seq<string>, sim: (string, string) -> real, v: real)
    ensures Sorting.KeyFilter(PriorityBoost(results, jd, musts, nices, sim), BoostScore, v)
      == Sorting.KeyFilter(BoostAll(results, ExtractSkills(jd, CandidateCount), musts, nices, sim), BoostScore, v)
  {
    Sorting.SortDescStable(BoostAll(results, ExtractSkills(jd, CandidateCount), musts, nices, sim), BoostScore, v);
  }

  /** _apply_priority_boosting with its loops. */
  method ApplyPriorityBoosting(results: seq<Match>, jd: string, musts: seq<string>, nices: seq<string>, sim: (string, string) -> real)
    returns (adjusted: seq<Boosted>)
    ensures adjusted == PriorityBoost(results, jd, musts, nices, sim)
  {
    var jdCandidates := ExtractSkillsFromJd(jd, CandidateCount);
    adjusted := BoostMatches(results, jdCandidates, musts, nices, sim);
    adjusted := Sorting.SortDesc(adjusted, BoostScore);
  }

  /** The loop of _apply_priority_boosting over the re-ranked matches. */
  method BoostMatches(results: seq<Match>, jdCandidates: seq<string>, musts: seq<string>, nices: seq<string>, sim: (string, string) -> real)
    returns (adjusted: seq<Boosted>)
    ensures adjusted == BoostAll(results, jdCandidates, musts, nices, sim)
  {
    adjusted := [];
    var i := 0;
    while i < |results|
      invariant 0 <= i <= |results|
      invariant adjusted == BoostAll(results[..i], jdCandidates, musts, nices, sim)
    {
      BoostAllStep(results, i, jdCandidates, musts, nices, sim);
      var rec := results[i];
      var bulletText := Preprocess(BulletText(rec.bullet));
      var matchedPhrases := MatchedPhrases(bulletText, jdCandidates, sim);
      var scoreAdj := AddHits(rec.score, musts, bulletText, MustBoost);
      scoreAdj := AddHits(scoreAdj, nices, bulletText, NiceBoost);
      adjusted := adjusted + [Boosted(rec.bullet, Trunc(scoreAdj), matchedPhrases)];
      i := i + 1;
    }
    assert results[..i] == results;
  }

  /** One boosting loop: `weight` points for every phrase found in the text. */
  method AddHits(score0: real, phrases: seq<string>, text: string, weight: int) returns (score: real)
    ensures score == score0 + (weight * Hits(phrases, text)) as real
  {
    score := score0;
    var j := 0;
    while j < |phrases|
      invariant 0 <= j <= |phrases|
      invariant score == score0 + (weight * Hits(phrases[..j], text)) as real
    {
      HitsStep(phrases, j, text);
      if Contains(Lower(text), Lower(phrases[j])) {
        score := score + weight as real;
      }
      j := j + 1;
    }
    assert phrases[..j] == phrases;
  }

  lemma HitsStep(phrases: seq<string>, j: int, text: string)
    requires 0 <= j < |phrases|
    ensures Hits(phrases[..j + 1], text) == Hits(phrases[..j], text) + (if Contains(Lower(text), Lower(phrases[j])) then 1 else 0)
  {
    var s := phrases[..j + 1];
    assert s[..|s| - 1] == phrases[..j];
  }

  // ================================================================ recommend_with_matches and recommend

  /** recommend_with_matches: priorities, semantic ranking, re-ranking, then boosting. */
  function Pipeline(bullets: seq<Bullet>, jd: string, topN: int, models: Models): seq<Boosted>
  {
    var (musts, nices) := Priorities(models.sentences(jd));
    var semantic := Semantic(bullets, jd, topN, models.similarity);
    PriorityBoost(Rerank(semantic, jd, models.crossEncoder), jd, musts, nices, models.similarity)
  }

  method RecommendWithMatches(bullets: seq<Bullet>, jd: string, topN: int, models: Models) returns (finalResults: seq<Boosted>)
    ensures finalResults == Pipeline(bullets, jd, topN, models)
  {
    var musts, nices := ExtractPrioritySkills(models.sentences(jd));
    var semanticResults := GetSemanticRecommendations(bullets, jd, topN, models.similarity);
    var crossEncoderResults := ApplyCrossEncoderReranking(semanticResults, jd, models.crossEncoder);
    finalResults := ApplyPriorityBoosting(crossEncoderResults, jd, musts, nices, models.similarity);
  }

  function BulletScore(b: Boosted): (Bullet, int)
  {
    (b.bullet, b.score)
  }

  /** recommend: the pipeline's results without their phrases. */
  function Recommend(bullets: seq<Bullet>, jd: string, topN: int, models: Models): seq<(Bullet, int)>
  {
    Sorting.MapSeq(Pipeline(bullets, jd, topN, models), BulletScore)
  }

  /**
   * The pipeline returns at most top_n results and at most one per distinct
   * normalised bullet text, best score first; each is a non-empty input
   * bullet, scored at least 1 plus 20 per must-have and 10 per nice-to-have
   * phrase it contains, with at most three matched phrases.
   */
  lemma PipelineSpec(bullets: seq<Bullet>, jd: string, topN: int, models: Models)
    ensures topN >= 0 ==> |Pipeline(bullets, jd, topN, models)| <= topN
    ensures |Pipeline(bullets, jd, topN, models)| <= |Dedup(BulletKeys(bullets))|
    ensures Sorting.SortedDesc(Pipeline(bullets, jd, topN, models), BoostScore)
    ensures forall k :: 0 <= k < |Pipeline(bullets, jd, topN, models)| ==>
      PipelineEntry(Pipeline(bullets, jd, topN, models)[k], bullets, Priorities(models.sentences(jd)))
  {
    var priorities := Priorities(models.sentences(jd));
    var semantic := Semantic(bullets, jd, topN, models.similarity);
    var cross := Rerank(semantic, jd, models.crossEncoder);
    SemanticSpec(bullets, jd, topN, models.similarity);
    RerankSpec(semantic, jd, models.crossEncoder);
    PriorityBoostSpec(cross, jd, priorities.0, priorities.1, models.similarity);
    RerankedEntries(bullets, jd, topN, models.similarity, models.crossEncoder);
    BoostedEntries(cross, jd, priorities, models.similarity, bullets);
  }

  /** Every re-ranked match is a non-empty input bullet scored at least 1. */
  lemma RerankedEntries(bullets: seq<Bullet>, jd: string, topN: int, sim: (string, string) -> real, ce: (string, string) -> real)
    ensures var cross := Rerank(Semantic(bullets, jd, topN, sim), jd, ce);
      forall i :: 0 <= i < |cross| ==> cross[i].score >= 1.0 && Truthy(cross[i].bullet) && cross[i].bullet in bullets
  {
    var semantic := Semantic(bullets, jd, topN, sim);
    var cross := Rerank(semantic, jd, ce);
    SemanticEntries(bullets, jd, topN, sim);
    RerankSpec(semantic, jd, ce);
    RerankBullets(semantic, jd, ce);
    forall i | 0 <= i < |cross| ensures Truthy(cross[i].bullet) && cross[i].bullet in bullets {
      CrossBullet(semantic, cross, i);
      var j :| 0 <= j < |semantic| && semantic[j].bullet == cross[i].bullet;
      var t := BulletKey(semantic[j].bullet);
      assert bullets[LastWithKey(bullets, t).value] == semantic[j].bullet;
    }
  }

  /** Boosting matches that are non-empty input bullets scored at least 1 gives entries the pipeline promises. */
  lemma BoostedEntries(cross: seq<Match>, jd: string, priorities: (seq<string>, seq<string>), sim: (string, string) -> real, bullets: seq<Bullet>)
    requires forall i :: 0 <= i < |cross| ==> cross[i].score >= 1.0 && Truthy(cross[i].bullet) && cross[i].bullet in bullets
    ensures forall k :: 0 <= k < |PriorityBoost(cross, jd, priorities.0, priorities.1, sim)| ==>
      PipelineEntry(PriorityBoost(cross, jd, priorities.0, priorities.1, sim)[k], bullets, priorities)
  {
    var cands := ExtractSkills(jd, CandidateCount);
    var r := PriorityBoost(cross, jd, priorities.0, priorities.1, sim);
    PriorityBoostSpec(cross, jd, priorities.0, priorities.1, sim);
    forall k | 0 <= k < |r| ensures PipelineEntry(r[k], bullets, priorities) {
      var i :| 0 <= i < |cross| && r[k] == BoostOne(cross[i], cands, priorities.0, priorities.1, sim);
      BoostOneSpec(cross[i], cands, priorities.0, priorities.1, sim);
      TruncAtLeast(cross[i].score);
    }
  }

  /** What the pipeline promises of each result. */
  predicate PipelineEntry(b: Boosted, bullets: seq<Bullet>, priorities: (seq<string>, seq<string>))
  {
    var text := BulletKey(b.bullet);
    && Truthy(b.bullet)
    && b.bullet in bullets
    && b.score >= 1 + MustBoost * Hits(priorities.0, text) + NiceBoost * Hits(priorities.1, text)
    && |b.phrases| <= PhraseCount
  }

  /** A re-ranked bullet is one of the bullets that came in. */
  lemma CrossBullet(semantic: seq<Match>, cross: seq<Match>, i: int)
    requires multiset(Sorting.MapSeq(cross, BulletOf)) == multiset(Sorting.MapSeq(semantic, BulletOf))
    requires 0 <= i < |cross|
    ensures exists j :: 0 <= j < |semantic| && semantic[j].bullet == cross[i].bullet
  {
    var cb := Sorting.MapSeq(cross, BulletOf);
    var sb := Sorting.MapSeq(semantic, BulletOf);
    assert cb[i] in multiset(cb);
    assert cb[i] in sb;
    var j :| 0 <= j < |sb| && sb[j] == cb[i];
  }

  lemma TruncAtLeast(x: real)
    requires x >= 1.0
    ensures Trunc(x) >= 1
  {
  }

  /** recommend keeps the pipeline's order and scores, one pair per result. */
  lemma RecommendSpec(bullets: seq<Bullet>, jd: string, topN: int, models: Models)
    ensures |Recommend(bullets, jd, topN, models)| == |Pipeline(bullets, jd, topN, models)|
    ensures forall i, j :: 0 <= i < j < |Recommend(bullets, jd, topN, models)| ==>
      Recommend(bullets, jd, topN, models)[i].1 >= Recommend(bullets, jd, topN, models)[j].1
    ensures forall i :: 0 <= i < |Recommend(bullets, jd, topN, models)| ==>
      Recommend(bullets, jd, topN, models)[i].0 in bullets && Recommend(bullets, jd, topN, models)[i].1 >= 1
  {
    var p := Pipeline(bullets, jd, topN, models);
    PipelineSpec(bullets, jd, topN, models);
    forall i, j | 0 <= i < j < |p| ensures p[i].score >= p[j].score {
      assert BoostScore(p[i]) >= BoostScore(p[j]);
    }
    forall i | 0 <= i < |p| ensures p[i].bullet in bullets && p[i].score >= 1 {
      assert PipelineEntry(p[i], bullets, Priorities(models.sentences(jd)));
    }
  }
}
