/** Filler-word statistics of analysis_utils.py: for every lexicon term,
    the matches of the pattern `\b<term>\b` that `re.findall` reports in the
    lower-cased text, summed; and the zero-guarded ratio against a word count
    supplied from outside. */
module Fillers {
  import opened Text
  import opened Collections

  /** The filler lexicon (a set in the source; its order does not matter to a sum). */
  const FillerWords: seq<string> := [
    "um", "uh", "like", "you know", "well", "so", "basically", "actually",
    "literally", "just", "kind of", "sort of", "i mean", "right", "okay"
  ]

  /** `\b` at position `i` of `t`: a word character on exactly one side. */
  predicate Boundary(t: string, i: nat)
    requires i <= |t|
  {
    (i > 0 && IsWordChar(t[i - 1])) != (i < |t| && IsWordChar(t[i]))
  }

  /** The pattern `\b<w>\b` matches `t` at position `i`. */
  predicate WholeWordAt(t: string, w: string, i: nat)
  {
    i + |w| <= |t| && t[i..i + |w|] == w && Boundary(t, i) && Boundary(t, i + |w|)
  }

  /** `len(re.findall(r'\b' + re.escape(w) + r'\b', t[pos:]))`, scanning as
      the regular-expression engine does: after a match the search resumes
      where the match ended, otherwise one position further on. */
  function FindAllCount(t: string, w: string, pos: nat): nat
    requires |w| > 0 && pos <= |t|
    decreases |t| - pos
  {
    if pos + |w| > |t| then 0
    else if WholeWordAt(t, w, pos) then 1 + FindAllCount(t, w, pos + |w|)
    else FindAllCount(t, w, pos + 1)
  }

  /** The matches are disjoint, so they never cover more than the text. */
  lemma {:induction false} FindAllCountBound(t: string, w: string, pos: nat)
    requires |w| > 0 && pos <= |t|
    ensures FindAllCount(t, w, pos) * |w| <= |t| - pos
    decreases |t| - pos
  {
    if pos + |w| <= |t| {
      if WholeWordAt(t, w, pos) {
        FindAllCountBound(t, w, pos + |w|);
        MulSucc(FindAllCount(t, w, pos + |w|), |w|);
      } else {
        FindAllCountBound(t, w, pos + 1);
      }
    }
  }

  lemma MulSucc(a: nat, b: nat)
    ensures (1 + a) * b == a * b + b
  {
  }

  /** Reference count: every position from `pos` on where the term occurs as
      a whole word, overlapping or not. */
  function Occurrences(t: string, w: string, pos: nat): nat
    requires |w| > 0 && pos <= |t|
    decreases |t| - pos
  {
    if pos + |w| > |t| then 0
    else (if WholeWordAt(t, w, pos) then 1 else 0) + Occurrences(t, w, pos + 1)
  }

  /** A term that starts and ends with a word character and in which no
      word that follows a non-word character starts with the term's first
      character. Such a term cannot occur as a whole word twice in overlapping
      places. */
  predicate WellFormedTerm(w: string)
  {
    |w| > 0 && IsWordChar(w[0]) && IsWordChar(w[|w| - 1])
    && forall d :: 1 <= d < |w| && !IsWordChar(w[d - 1]) ==> w[d] != w[0]
  }

  lemma NoOverlappingMatch(t: string, w: string, i: nat, j: nat)
    requires WellFormedTerm(w) && WholeWordAt(t, w, i) && i < j < i + |w|
    ensures !WholeWordAt(t, w, j)
  {
  }

  lemma {:induction false} OccurrencesSkip(t: string, w: string, a: nat, b: nat)
    requires |w| > 0 && a <= b <= |t|
    requires forall j :: a <= j < b ==> !WholeWordAt(t, w, j)
    ensures Occurrences(t, w, a) == Occurrences(t, w, b) || (a + |w| > |t| && Occurrences(t, w, a) == 0)
    ensures b + |w| <= |t| ==> Occurrences(t, w, a) == Occurrences(t, w, b)
    decreases b - a
  {
    if a < b {
      OccurrencesSkip(t, w, a + 1, b);
    }
  }

  /** For a well-formed term, the left-to-right scan of `re.findall` finds
      every whole-word occurrence: nothing is lost to the scan resuming after
      a match. */
  lemma {:induction false} FindAllCountIsOccurrences(t: string, w: string, pos: nat)
    requires WellFormedTerm(w) && pos <= |t|
    ensures FindAllCount(t, w, pos) == Occurrences(t, w, pos)
    decreases |t| - pos
  {
    if pos + |w| <= |t| {
      if WholeWordAt(t, w, pos) {
        FindAllCountIsOccurrences(t, w, pos + |w|);
        forall j | pos + 1 <= j < pos + |w| ensures !WholeWordAt(t, w, j) {
          NoOverlappingMatch(t, w, pos, j);
        }
        OccurrencesSkip(t, w, pos + 1, pos + |w|);
      } else {
        FindAllCountIsOccurrences(t, w, pos + 1);
      }
    }
  }

  /** A whole-word match of a well-formed term is never part of a longer
      word: `so` is not found inside `also`. */
  lemma WholeWordNotInsideWord(t: string, w: string, i: nat)
    requires WellFormedTerm(w) && WholeWordAt(t, w, i)
    ensures i == 0 || !IsWordChar(t[i - 1])
    ensures i + |w| == |t| || !IsWordChar(t[i + |w|])
  {
    assert t[i] == t[i..i + |w|][0] == w[0];
    assert t[i + |w| - 1] == t[i..i + |w|][|w| - 1] == w[|w| - 1];
  }

  lemma FirstTermsWellFormed()
    ensures forall k :: 0 <= k < 8 ==> WellFormedTerm(FillerWords[k])
  {
  }

  lemma LastTermsWellFormed()
    ensures forall k :: 8 <= k < |FillerWords| ==> WellFormedTerm(FillerWords[k])
  {
  }

  lemma EveryLexiconTermWellFormed()
    ensures forall k :: 0 <= k < |FillerWords| ==> WellFormedTerm(FillerWords[k])
  {
    FirstTermsWellFormed();
    LastTermsWellFormed();
  }

  /** The loop's sum: the matches of every term of `terms` in `t`. */
  function LexiconCount(t: string, terms: seq<string>): nat
    requires forall k :: 0 <= k < |terms| ==> |terms[k]| > 0
  {
    if |terms| == 0 then 0
    else LexiconCount(t, terms[..|terms| - 1]) + FindAllCount(t, terms[|terms| - 1], 0)
  }

  /** The same sum taken over the whole-word occurrences of each term. */
  function LexiconOccurrences(t: string, terms: seq<string>): nat
    requires forall k :: 0 <= k < |terms| ==> |terms[k]| > 0
  {
    if |terms| == 0 then 0
    else LexiconOccurrences(t, terms[..|terms| - 1]) + Occurrences(t, terms[|terms| - 1], 0)
  }

  lemma {:induction false} LexiconCountIsOccurrences(t: string, terms: seq<string>)
    requires forall k :: 0 <= k < |terms| ==> |terms[k]| > 0
    requires forall k :: 0 <= k < |terms| ==> WellFormedTerm(terms[k])
    ensures LexiconCount(t, terms) == LexiconOccurrences(t, terms)
  {
    if |terms| > 0 {
      LexiconCountIsOccurrences(t, terms[..|terms| - 1]);
      FindAllCountIsOccurrences(t, terms[|terms| - 1], 0);
    }
  }

  datatype FillerStats = FillerStats(count: nat, totalWords: nat, ratio: real)

  /** What `calculate_filler_word_stats` returns, `countWords` standing for
      the tokenizer's count of non-punctuation, non-space tokens. */
  function FillerStatsOf(text: string, countWords: string -> nat): FillerStats
  {
    if text == "" then FillerStats(0, 0, 0.0)
    else
      var count := LexiconCount(Lower(text), FillerWords);
      FillerStats(count, countWords(text), Ratio(count, countWords(text)))
  }

  /** `calculate_filler_word_stats`. */
  method CalculateFillerWordStats(text: string, countWords: string -> nat) returns (stats: FillerStats)
    ensures stats == FillerStatsOf(text, countWords)
  {
    if text == "" {
      return FillerStats(0, 0, 0.0);
    }
    var totalWords := countWords(text);
    var fillerCount := 0;
    var textLower := Lower(text);
    for k := 0 to |FillerWords|
      invariant fillerCount == LexiconCount(textLower, FillerWords[..k])
    {
      assert FillerWords[..k + 1][..k] == FillerWords[..k];
      fillerCount := fillerCount + FindAllCount(textLower, FillerWords[k], 0);
    }
    assert FillerWords[..|FillerWords|] == FillerWords;
    var ratio := if totalWords > 0 then fillerCount as real / totalWords as real else 0.0;
    stats := FillerStats(fillerCount, totalWords, ratio);
  }

  /** The statistics: empty text gives all zeros without consulting the word
      counter; otherwise the count is the number of whole-word lexicon
      occurrences in the lower-cased text, and the ratio never divides by zero. */
  lemma FillerStatsMeaning(text: string, countWords: string -> nat)
    ensures text == "" ==> FillerStatsOf(text, countWords) == FillerStats(0, 0, 0.0)
    ensures text != "" ==> FillerStatsOf(text, countWords).count == LexiconOccurrences(Lower(text), FillerWords)
    ensures text != "" ==> FillerStatsOf(text, countWords).totalWords == countWords(text)
    ensures var s := FillerStatsOf(text, countWords);
      s.ratio == (if s.totalWords > 0 then s.count as real / s.totalWords as real else 0.0)
  {
    EveryLexiconTermWellFormed();
    LexiconCountIsOccurrences(Lower(text), FillerWords);
  }

  /** Matching is case-insensitive: texts equal up to case have equal counts. */
  lemma FillerCountCaseInsensitive(a: string, b: string, countWords: string -> nat)
    requires Lower(a) == Lower(b)
    ensures FillerStatsOf(a, countWords).count == FillerStatsOf(b, countWords).count
  {
  }

  // ---------------------------------------------------------------------
  // Counting by pieces.

  /** Past a non-word separator, a whole-word match in the joined text is a
      whole-word match in the part after it. */
  lemma WholeWordAfter(a: string, c: char, b: string, w: string, pos: nat)
    requires WellFormedTerm(w) && !IsWordChar(c)
    requires |a| + 1 <= pos && pos + |w| <= |a| + 1 + |b|
    ensures WholeWordAt(a + [c] + b, w, pos) == WholeWordAt(b, w, pos - |a| - 1)
  {
    var t := a + [c] + b;
    var n := |a|;
    var q := pos - n - 1;
    assert t[pos..pos + |w|] == b[q..q + |w|];
    assert forall i :: n + 1 <= i < |t| ==> t[i] == b[i - n - 1];
    assert t[n] == c;
  }

  lemma {:induction false} OccurrencesAfter(a: string, c: char, b: string, w: string, pos: nat)
    requires WellFormedTerm(w) && !IsWordChar(c)
    requires |a| + 1 <= pos <= |a| + 1 + |b|
    ensures Occurrences(a + [c] + b, w, pos) == Occurrences(b, w, pos - |a| - 1)
    decreases |a| + 1 + |b| - pos
  {
    if pos + |w| <= |a| + 1 + |b| {
      OccurrencesAfter(a, c, b, w, pos + 1);
      WholeWordAfter(a, c, b, w, pos);
    }
  }

  lemma {:induction false} OccurrencesBefore(a: string, c: char, b: string, w: string, pos: nat)
    requires WellFormedTerm(w) && !IsWordChar(c) && c !in w
    requires pos <= |a|
    ensures Occurrences(a + [c] + b, w, pos) == Occurrences(a, w, pos) + Occurrences(a + [c] + b, w, |a|)
    decreases |a| - pos
  {
    var t := a + [c] + b;
    var n := |a|;
    if pos < n && pos + |w| <= |t| {
      OccurrencesBefore(a, c, b, w, pos + 1);
      assert forall i :: 0 <= i < n ==> t[i] == a[i];
      assert t[n] == c;
      if pos + |w| <= n {
        assert t[pos..pos + |w|] == a[pos..pos + |w|];
        assert WholeWordAt(t, w, pos) == WholeWordAt(a, w, pos);
      } else {
        assert t[pos..pos + |w|][n - pos] == c;
      }
    }
  }

  /** A non-word character that the term does not contain separates the
      text into two halves that are counted independently. */
  lemma OccurrencesSplit(a: string, c: char, b: string, w: string)
    requires WellFormedTerm(w) && !IsWordChar(c) && c !in w
    ensures Occurrences(a + [c] + b, w, 0) == Occurrences(a, w, 0) + Occurrences(b, w, 0)
  {
    var t := a + [c] + b;
    OccurrencesBefore(a, c, b, w, 0);
    OccurrencesAfter(a, c, b, w, |a| + 1);
    assert t[|a|] == c;
    if |a| + |w| <= |t| {
      assert !WholeWordAt(t, w, |a|) by { assert t[|a|..|a| + |w|][0] == c; }
    }
  }

  /** A term with a character the text lacks never occurs in it. */
  lemma {:induction false} OccurrencesMissingChar(t: string, w: string, d: nat, pos: nat)
    requires |w| > 0 && pos <= |t| && d < |w| && w[d] !in t
    ensures Occurrences(t, w, pos) == 0
    decreases |t| - pos
  {
    if pos + |w| <= |t| {
      OccurrencesMissingChar(t, w, d, pos + 1);
      assert t[pos..pos + |w|][d] == t[pos + d];
    }
  }

  lemma SelfOccurrence(w: string)
    requires WellFormedTerm(w)
    ensures Occurrences(w, w, 0) == 1
  {
    assert w[0..|w|] == w;
    assert WholeWordAt(w, w, 0);
  }

  lemma {:induction false} NoInnerMatch(u: string, w: string, pos: nat)
    requires forall i :: 0 <= i < |u| ==> IsWordChar(u[i])
    requires |w| > 0 && 1 <= pos <= |u|
    ensures Occurrences(u, w, pos) == 0
    decreases |u| - pos
  {
    if pos + |w| <= |u| {
      assert !Boundary(u, pos);
      NoInnerMatch(u, w, pos + 1);
    }
  }

  /** Inside a single word a term occurs exactly when it is the whole word. */
  lemma WordOccurrence(u: string, w: string)
    requires forall i :: 0 <= i < |u| ==> IsWordChar(u[i])
    requires WellFormedTerm(w)
    ensures Occurrences(u, w, 0) == if u == w then 1 else 0
  {
    if |w| <= |u| {
      NoInnerMatch(u, w, 1);
      if |w| < |u| {
        assert !Boundary(u, |w|);
      } else {
        assert u[0..|w|] == u;
      }
    }
  }

  /** Words joined by separator characters: `words[0] seps[0] words[1] ...`. */
  function Glue(words: seq<string>, seps: seq<char>): string
    requires |words| == |seps| + 1
  {
    if |seps| == 0 then words[0] else words[0] + [seps[0]] + Glue(words[1..], seps[1..])
  }

  function CountOf(words: seq<string>, w: string): nat
  {
    if words == [] then 0 else (if words[0] == w then 1 else 0) + CountOf(words[1..], w)
  }

  predicate OneWord(w: string)
  {
    forall i :: 0 <= i < |w| ==> IsWordChar(w[i])
  }

  /** Reference reading of the count for a one-word term: in a text made of
      words and separators, the term is counted once for every word that is
      exactly the term, and never inside a longer word. */
  lemma {:induction false} GlueCount(words: seq<string>, seps: seq<char>, w: string)
    requires |words| == |seps| + 1
    requires forall k :: 0 <= k < |words| ==> OneWord(words[k])
    requires forall k :: 0 <= k < |seps| ==> !IsWordChar(seps[k])
    requires WellFormedTerm(w) && OneWord(w)
    ensures Occurrences(Glue(words, seps), w, 0) == CountOf(words, w)
    decreases |seps|
  {
    WordOccurrence(words[0], w);
    if |seps| > 0 {
      assert seps[0] !in w;
      GlueCount(words[1..], seps[1..], w);
      OccurrencesSplit(words[0], seps[0], Glue(words[1..], seps[1..]), w);
    }
  }

  // ---------------------------------------------------------------------
  // The repeated-filler test text.

  /** `n` copies of `w` separated by single spaces. */
  function Repeat(w: string, n: nat): string
    requires n >= 1
  {
    if n == 1 then w else w + " " + Repeat(w, n - 1)
  }

  lemma {:induction false} RepeatChars(w: string, n: nat)
    requires n >= 1
    ensures forall i :: 0 <= i < |Repeat(w, n)| ==> Repeat(w, n)[i] in w || Repeat(w, n)[i] == ' '
  {
    if n > 1 {
      RepeatChars(w, n - 1);
      var r := Repeat(w, n - 1);
      assert Repeat(w, n) == w + [' '] + r;
      forall i | 0 <= i < |Repeat(w, n)| ensures Repeat(w, n)[i] in w || Repeat(w, n)[i] == ' ' {
        if i < |w| { assert Repeat(w, n)[i] == w[i]; }
        else if i > |w| { assert Repeat(w, n)[i] == r[i - |w| - 1]; }
      }
    }
  }

  /** `n` space-separated copies of a one-word term count `n`. */
  lemma {:induction false} RepeatCount(w: string, n: nat)
    requires WellFormedTerm(w) && ' ' !in w && n >= 1
    ensures Occurrences(Repeat(w, n), w, 0) == n
  {
    SelfOccurrence(w);
    if n > 1 {
      RepeatCount(w, n - 1);
      assert Repeat(w, n) == w + [' '] + Repeat(w, n - 1);
      OccurrencesSplit(w, ' ', Repeat(w, n - 1), w);
    }
  }

  lemma LexiconSnoc(t: string, ts: seq<string>, w: string)
    requires forall k :: 0 <= k < |ts| ==> |ts[k]| > 0
    requires |w| > 0
    ensures LexiconOccurrences(t, ts + [w]) == LexiconOccurrences(t, ts) + Occurrences(t, w, 0)
  {
    assert (ts + [w])[..|ts|] == ts;
  }

  lemma LexiconFirstEight(t: string)
    ensures LexiconOccurrences(t, FillerWords[..8]) ==
      Occurrences(t, "um", 0) + Occurrences(t, "uh", 0) + Occurrences(t, "like", 0)
      + Occurrences(t, "you know", 0) + Occurrences(t, "well", 0) + Occurrences(t, "so", 0)
      + Occurrences(t, "basically", 0) + Occurrences(t, "actually", 0)
  {
    LexiconSnoc(t, FillerWords[..0], FillerWords[0]);
    assert FillerWords[..0] + [FillerWords[0]] == FillerWords[..1];
    LexiconSnoc(t, FillerWords[..1], FillerWords[1]);
    assert FillerWords[..1] + [FillerWords[1]] == FillerWords[..2];
    LexiconSnoc(t, FillerWords[..2], FillerWords[2]);
    assert FillerWords[..2] + [FillerWords[2]] == FillerWords[..3];
    LexiconSnoc(t, FillerWords[..3], FillerWords[3]);
    assert FillerWords[..3] + [FillerWords[3]] == FillerWords[..4];
    LexiconSnoc(t, FillerWords[..4], FillerWords[4]);
    assert FillerWords[..4] + [FillerWords[4]] == FillerWords[..5];
    LexiconSnoc(t, FillerWords[..5], FillerWords[5]);
    assert FillerWords[..5] + [FillerWords[5]] == FillerWords[..6];
    LexiconSnoc(t, FillerWords[..6], FillerWords[6]);
    assert FillerWords[..6] + [FillerWords[6]] == FillerWords[..7];
    LexiconSnoc(t, FillerWords[..7], FillerWords[7]);
    assert FillerWords[..7] + [FillerWords[7]] == FillerWords[..8];
  }

  /** The lexicon count written out term by term. */
  lemma LexiconTermByTerm(t: string)
    ensures LexiconOccurrences(t, FillerWords) ==
      Occurrences(t, "um", 0) + Occurrences(t, "uh", 0) + Occurrences(t, "like", 0)
      + Occurrences(t, "you know", 0) + Occurrences(t, "well", 0) + Occurrences(t, "so", 0)
      + Occurrences(t, "basically", 0) + Occurrences(t, "actually", 0) + Occurrences(t, "literally", 0)
      + Occurrences(t, "just", 0) + Occurrences(t, "kind of", 0) + Occurrences(t, "sort of", 0)
      + Occurrences(t, "i mean", 0) + Occurrences(t, "right", 0) + Occurrences(t, "okay", 0)
  {
    LexiconFirstEight(t);
    LexiconSnoc(t, FillerWords[..8], FillerWords[8]);
    assert FillerWords[..8] + [FillerWords[8]] == FillerWords[..9];
    LexiconSnoc(t, FillerWords[..9], FillerWords[9]);
    assert FillerWords[..9] + [FillerWords[9]] == FillerWords[..10];
    LexiconSnoc(t, FillerWords[..10], FillerWords[10]);
    assert FillerWords[..10] + [FillerWords[10]] == FillerWords[..11];
    LexiconSnoc(t, FillerWords[..11], FillerWords[11]);
    assert FillerWords[..11] + [FillerWords[11]] == FillerWords[..12];
    LexiconSnoc(t, FillerWords[..12], FillerWords[12]);
    assert FillerWords[..12] + [FillerWords[12]] == FillerWords[..13];
    LexiconSnoc(t, FillerWords[..13], FillerWords[13]);
    assert FillerWords[..13] + [FillerWords[13]] == FillerWords[..14];
    LexiconSnoc(t, FillerWords[..14], FillerWords[14]);
    assert FillerWords[..14] + [FillerWords[14]] == FillerWords[..15];
    assert FillerWords[..15] == FillerWords;
  }

  /** A text of `u`, `m` and spaces holds none of the other lexicon terms;
      each of them has a character the text lacks. */
  predicate OnlyUmLetters(t: string)
  {
    forall i :: 0 <= i < |t| ==> t[i] == 'u' || t[i] == 'm' || t[i] == ' '
  }

  lemma NoOtherTermsFirst(t: string)
    requires OnlyUmLetters(t)
    ensures Occurrences(t, "uh", 0) == 0 && Occurrences(t, "like", 0) == 0
      && Occurrences(t, "you know", 0) == 0 && Occurrences(t, "well", 0) == 0
      && Occurrences(t, "so", 0) == 0 && Occurrences(t, "basically", 0) == 0
      && Occurrences(t, "actually", 0) == 0
  {
    OccurrencesMissingChar(t, "uh", 1, 0);
    OccurrencesMissingChar(t, "like", 0, 0);
    OccurrencesMissingChar(t, "you know", 0, 0);
    OccurrencesMissingChar(t, "well", 0, 0);
    OccurrencesMissingChar(t, "so", 0, 0);
    OccurrencesMissingChar(t, "basically", 0, 0);
    OccurrencesMissingChar(t, "actually", 0, 0);
  }

  lemma NoOtherTermsSecond(t: string)
    requires OnlyUmLetters(t)
    ensures Occurrences(t, "literally", 0) == 0 && Occurrences(t, "just", 0) == 0
      && Occurrences(t, "kind of", 0) == 0 && Occurrences(t, "sort of", 0) == 0
      && Occurrences(t, "i mean", 0) == 0 && Occurrences(t, "right", 0) == 0
      && Occurrences(t, "okay", 0) == 0
  {
    OccurrencesMissingChar(t, "literally", 0, 0);
    OccurrencesMissingChar(t, "just", 0, 0);
    OccurrencesMissingChar(t, "kind of", 0, 0);
    OccurrencesMissingChar(t, "sort of", 0, 0);
    OccurrencesMissingChar(t, "i mean", 0, 0);
    OccurrencesMissingChar(t, "right", 0, 0);
    OccurrencesMissingChar(t, "okay", 0, 0);
  }

  /** `um um ... um` with `n` copies holds `n` fillers and nothing else. */
  lemma RepeatedUm(n: nat)
    requires n >= 1
    ensures LexiconOccurrences(Repeat("um", n), FillerWords) == n
  {
    var t := Repeat("um", n);
    LexiconTermByTerm(t);
    EveryLexiconTermWellFormed();
    assert WellFormedTerm(FillerWords[0]);
    RepeatCount("um", n);
    RepeatChars("um", n);
    NoOtherTermsFirst(t);
    NoOtherTermsSecond(t);
  }

  /** The statistics of `um um ... um` count every copy. */
  lemma RepeatedUmStats(n: nat, countWords: string -> nat)
    requires n >= 1
    ensures FillerStatsOf(Repeat("um", n), countWords).count == n
  {
    var t := Repeat("um", n);
    RepeatChars("um", n);
    NoUpperKept(t);
    RepeatedUm(n);
    FillerStatsMeaning(t, countWords);
  }

  /** The all-fillers test text counts four. */
  lemma FourUms(countWords: string -> nat)
    ensures FillerStatsOf("um um um um", countWords).count == 4
  {
    assert Repeat("um", 4) == "um um um um";
    RepeatedUmStats(4, countWords);
  }
}
