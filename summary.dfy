/** The arithmetic of the summary tab in ui_components.py, taken out of the
    rendering: corpus totals, the per-speaker table and the overall
    distribution of sentiment labels, all over the analysis records. */
module Summary {
  import opened Text
  import opened Collections
  import opened Sentiment
  import opened Analysis

  function One(r: Record): nat { 1 }
  function WordsOf(r: Record): nat { r.totalWords }
  function FillersOf(r: Record): nat { r.fillerWords }
  function SpeakerOf(r: Record): string { r.speaker }
  function SentimentOf(r: Record): string { r.sentiment }

  lemma {:induction false} SumOfOne(rs: seq<Record>)
    ensures SumOf(rs, One) == |rs|
  {
    if rs != [] {
      SumOfOne(rs[1..]);
    }
  }

  // ---------------------------------------------------------------------
  // Corpus totals.

  datatype CorpusTotals = CorpusTotals(
    numTurns: nat, totalWords: nat, avgWordsPerTurn: real, fillerWords: nat, fillerRatio: real)

  /** The four metrics at the top of the tab. */
  function CorpusTotalsOf(rs: seq<Record>): CorpusTotals
  {
    var words := SumOf(rs, WordsOf);
    var fillers := SumOf(rs, FillersOf);
    CorpusTotals(|rs|, words, Ratio(words, |rs|), fillers, Ratio(fillers, words))
  }

  /** Total words is the sum of the per-turn word counts and the filler
      total the sum of the per-turn filler counts; the average times the
      number of turns is the total, and the corpus ratio times the total words
      is the filler total, both guarded against zero. */
  lemma CorpusTotalsMeaning(rs: seq<Record>)
    ensures var c := CorpusTotalsOf(rs);
      c.numTurns == |rs|
      && (rs != [] ==> c.totalWords == rs[0].totalWords + CorpusTotalsOf(rs[1..]).totalWords)
      && (rs != [] ==> c.fillerWords == rs[0].fillerWords + CorpusTotalsOf(rs[1..]).fillerWords)
      && (rs == [] ==> c.totalWords == 0 && c.fillerWords == 0)
    ensures var c := CorpusTotalsOf(rs);
      (|rs| > 0 ==> c.avgWordsPerTurn * |rs| as real == c.totalWords as real)
      && (|rs| == 0 ==> c.avgWordsPerTurn == 0.0)
      && (c.totalWords > 0 ==> c.fillerRatio * c.totalWords as real == c.fillerWords as real)
      && (c.totalWords == 0 ==> c.fillerRatio == 0.0)
  {
  }

  // ---------------------------------------------------------------------
  // Per-speaker table.

  /** The sentiment columns compare the lower-cased label. */
  predicate IsPositiveLabel(s: string) { Lower(s) == "positive" }
  predicate IsNeutralLabel(s: string) { Lower(s) == "neutral" }
  predicate IsNegativeLabel(s: string) { Lower(s) == "negative" }

  function PositiveOf(r: Record): nat { if IsPositiveLabel(r.sentiment) then 1 else 0 }
  function NeutralOf(r: Record): nat { if IsNeutralLabel(r.sentiment) then 1 else 0 }
  function NegativeOf(r: Record): nat { if IsNegativeLabel(r.sentiment) then 1 else 0 }

  datatype SpeakerRow = SpeakerRow(
    speaker: string, turns: nat, totalWords: nat, totalFillerWords: nat,
    positive: nat, neutral: nat, negative: nat, avgWordsPerTurn: real, fillerRatio: real)

  /** The aggregation for one speaker. */
  function SpeakerRowOf(rs: seq<Record>, sp: string): SpeakerRow
  {
    var turns := SumWhere(rs, SpeakerOf, sp, One);
    var words := SumWhere(rs, SpeakerOf, sp, WordsOf);
    var fillers := SumWhere(rs, SpeakerOf, sp, FillersOf);
    SpeakerRow(sp, turns, words, fillers,
               SumWhere(rs, SpeakerOf, sp, PositiveOf),
               SumWhere(rs, SpeakerOf, sp, NeutralOf),
               SumWhere(rs, SpeakerOf, sp, NegativeOf),
               Ratio(words, turns), Ratio(fillers, words))
  }

  function SpeakerRows(rs: seq<Record>, ks: seq<string>): (rows: seq<SpeakerRow>)
    ensures |rows| == |ks|
    ensures forall i :: 0 <= i < |ks| ==> rows[i] == SpeakerRowOf(rs, ks[i])
  {
    if ks == [] then [] else [SpeakerRowOf(rs, ks[0])] + SpeakerRows(rs, ks[1..])
  }

  /** `df.groupby(Speaker).agg(...)`: one row per distinct speaker. */
  function SpeakerSummary(rs: seq<Record>): seq<SpeakerRow>
  {
    SpeakerRows(rs, KeysOf(rs, SpeakerOf))
  }

  function RowTurns(row: SpeakerRow): nat { row.turns }
  function RowWords(row: SpeakerRow): nat { row.totalWords }
  function RowFillers(row: SpeakerRow): nat { row.totalFillerWords }

  lemma {:induction false} RowSums(rs: seq<Record>, ks: seq<string>)
    ensures SumOf(SpeakerRows(rs, ks), RowTurns) == SumsFor(rs, SpeakerOf, ks, One)
    ensures SumOf(SpeakerRows(rs, ks), RowWords) == SumsFor(rs, SpeakerOf, ks, WordsOf)
    ensures SumOf(SpeakerRows(rs, ks), RowFillers) == SumsFor(rs, SpeakerOf, ks, FillersOf)
  {
    if ks != [] {
      RowSums(rs, ks[1..]);
      assert SpeakerRows(rs, ks)[1..] == SpeakerRows(rs, ks[1..]);
    }
  }

  lemma {:induction false} SpeakerTurnsPositive(rs: seq<Record>, i: nat)
    requires i < |rs|
    ensures SumWhere(rs, SpeakerOf, rs[i].speaker, One) >= 1
  {
    if i > 0 {
      SpeakerTurnsPositive(rs[1..], i - 1);
    }
  }

  lemma {:induction false} SentimentTurnsPositive(rs: seq<Record>, s: string)
    requires s in KeysOf(rs, SentimentOf)
    ensures |rs| > 0
  {
    DedupKeeps(Column(rs, SentimentOf), s);
  }

  /** One row per distinct speaker, in order of first appearance. */
  lemma SpeakersDistinct(rs: seq<Record>)
    ensures forall i, j :: 0 <= i < j < |SpeakerSummary(rs)| ==>
      SpeakerSummary(rs)[i].speaker != SpeakerSummary(rs)[j].speaker
  {
    KeysOfMeaning(rs, SpeakerOf);
  }

  /** Every record's speaker has its row. */
  lemma SpeakersCovered(rs: seq<Record>)
    ensures forall k :: 0 <= k < |rs| ==>
      exists i :: 0 <= i < |SpeakerSummary(rs)| && SpeakerSummary(rs)[i].speaker == rs[k].speaker
  {
    var ks := KeysOf(rs, SpeakerOf);
    KeysOfMeaning(rs, SpeakerOf);
    var rows := SpeakerSummary(rs);
    forall k | 0 <= k < |rs| ensures exists i :: 0 <= i < |rows| && rows[i].speaker == rs[k].speaker {
      assert SpeakerOf(rs[k]) in ks;
      var i :| 0 <= i < |ks| && ks[i] == SpeakerOf(rs[k]);
      assert rows[i].speaker == rs[k].speaker;
    }
  }

  lemma SpeakerRowTurns(rs: seq<Record>, sp: string)
    requires sp in KeysOf(rs, SpeakerOf)
    ensures SumWhere(rs, SpeakerOf, sp, One) >= 1
  {
    DedupKeeps(Column(rs, SpeakerOf), sp);
    var k :| 0 <= k < |rs| && Column(rs, SpeakerOf)[k] == sp;
    SpeakerTurnsPositive(rs, k);
  }

  lemma SpeakerRowFacts(rs: seq<Record>, sp: string)
    requires sp in KeysOf(rs, SpeakerOf)
    ensures var row := SpeakerRowOf(rs, sp);
      row.turns >= 1
      && row.avgWordsPerTurn == row.totalWords as real / row.turns as real
      && row.fillerRatio == (if row.totalWords > 0 then row.totalFillerWords as real / row.totalWords as real else 0.0)
  {
    SpeakerRowTurns(rs, sp);
  }

  /** Every row has at least one turn, so its average words per turn is a
      true division; its filler ratio is filler total / word total, or 0
      for a speaker with no words. */
  lemma SpeakerRowAverages(rs: seq<Record>)
    ensures forall row :: row in SpeakerSummary(rs) ==>
      row.turns >= 1
      && row.avgWordsPerTurn == row.totalWords as real / row.turns as real
      && row.fillerRatio == (if row.totalWords > 0 then row.totalFillerWords as real / row.totalWords as real else 0.0)
  {
    var ks := KeysOf(rs, SpeakerOf);
    var rows := SpeakerSummary(rs);
    forall row | row in rows ensures
      row.turns >= 1
      && row.avgWordsPerTurn == row.totalWords as real / row.turns as real
      && row.fillerRatio == (if row.totalWords > 0 then row.totalFillerWords as real / row.totalWords as real else 0.0)
    {
      var i :| 0 <= i < |rows| && rows[i] == row;
      assert row == SpeakerRowOf(rs, ks[i]);
      SpeakerRowFacts(rs, ks[i]);
    }
  }

  /** The per-speaker turns add up to the number of records, and the
      per-speaker word and filler totals to the corpus totals. */
  lemma SpeakerTotalsAddUp(rs: seq<Record>)
    ensures SumOf(SpeakerSummary(rs), RowTurns) == |rs|
    ensures SumOf(SpeakerSummary(rs), RowWords) == CorpusTotalsOf(rs).totalWords
    ensures SumOf(SpeakerSummary(rs), RowFillers) == CorpusTotalsOf(rs).fillerWords
  {
    RowSums(rs, KeysOf(rs, SpeakerOf));
    KeySumsAddUp(rs, SpeakerOf, One);
    KeySumsAddUp(rs, SpeakerOf, WordsOf);
    KeySumsAddUp(rs, SpeakerOf, FillersOf);
    SumOfOne(rs);
  }

  /** A label lands in at most one of the three sentiment columns. */
  lemma LabelClassesDisjoint(s: string)
    ensures !(IsPositiveLabel(s) && IsNeutralLabel(s))
    ensures !(IsPositiveLabel(s) && IsNegativeLabel(s))
    ensures !(IsNeutralLabel(s) && IsNegativeLabel(s))
  {
  }

  lemma {:induction false} SentimentCountsBounded(rs: seq<Record>, sp: string)
    ensures SumWhere(rs, SpeakerOf, sp, PositiveOf) + SumWhere(rs, SpeakerOf, sp, NeutralOf)
            + SumWhere(rs, SpeakerOf, sp, NegativeOf) <= SumWhere(rs, SpeakerOf, sp, One)
  {
    if rs != [] {
      LabelClassesDisjoint(rs[0].sentiment);
      SentimentCountsBounded(rs[1..], sp);
    }
  }

  /** For every speaker, Positive + Neutral + Negative <= Turns: each turn
      is counted in at most one sentiment column. */
  lemma SpeakerSentimentBounded(rs: seq<Record>)
    ensures forall row :: row in SpeakerSummary(rs) ==> row.positive + row.neutral + row.negative <= row.turns
  {
    forall row | row in SpeakerSummary(rs) ensures row.positive + row.neutral + row.negative <= row.turns {
      SentimentCountsBounded(rs, row.speaker);
    }
  }

  /** The comparison ignores case: the canonical labels and the lower-case
      labels some models emit land in the same column, and ERROR in none. */
  lemma PositiveColumnIgnoresCase()
    ensures IsPositiveLabel("POSITIVE") && IsPositiveLabel("positive")
  {
    LowerMatches("POSITIVE", "positive");
    NoUpperKept("positive");
  }

  lemma NeutralColumnIgnoresCase()
    ensures IsNeutralLabel("NEUTRAL") && IsNeutralLabel("neutral")
  {
    LowerMatches("NEUTRAL", "neutral");
    NoUpperKept("neutral");
  }

  lemma NegativeColumnIgnoresCase()
    ensures IsNegativeLabel("NEGATIVE") && IsNegativeLabel("negative")
  {
    LowerMatches("NEGATIVE", "negative");
    NoUpperKept("negative");
  }

  lemma ErrorInNoColumn()
    ensures !IsPositiveLabel("ERROR") && !IsNeutralLabel("ERROR") && !IsNegativeLabel("ERROR")
  {
    LowerMatches("ERROR", "error");
  }

  // ---------------------------------------------------------------------
  // Overall distribution.

  datatype LabelShare = LabelShare(sentiment: string, count: nat, share: real)

  function LabelShareOf(rs: seq<Record>, s: string): LabelShare
  {
    var count := SumWhere(rs, SentimentOf, s, One);
    LabelShare(s, count, Ratio(count, |rs|))
  }

  function LabelShares(rs: seq<Record>, ks: seq<string>): (ls: seq<LabelShare>)
    ensures |ls| == |ks|
    ensures forall i :: 0 <= i < |ks| ==> ls[i] == LabelShareOf(rs, ks[i])
  {
    if ks == [] then [] else [LabelShareOf(rs, ks[0])] + LabelShares(rs, ks[1..])
  }

  /** `value_counts()` of the label column, compared exactly as strings. */
  function Distribution(rs: seq<Record>): seq<LabelShare>
  {
    LabelShares(rs, KeysOf(rs, SentimentOf))
  }

  function ShareCount(l: LabelShare): nat { l.count }

  lemma {:induction false} ShareSums(rs: seq<Record>, ks: seq<string>)
    ensures SumOf(LabelShares(rs, ks), ShareCount) == SumsFor(rs, SentimentOf, ks, One)
  {
    if ks != [] {
      ShareSums(rs, ks[1..]);
      assert LabelShares(rs, ks)[1..] == LabelShares(rs, ks[1..]);
    }
  }

  /** One entry per distinct label string, compared exactly: `POSITIVE`
      and `positive` are two entries. */
  lemma LabelsDistinct(rs: seq<Record>)
    ensures forall i, j :: 0 <= i < j < |Distribution(rs)| ==>
      Distribution(rs)[i].sentiment != Distribution(rs)[j].sentiment
    ensures forall k :: 0 <= k < |rs| ==>
      exists i :: 0 <= i < |Distribution(rs)| && Distribution(rs)[i].sentiment == rs[k].sentiment
  {
    var ks := KeysOf(rs, SentimentOf);
    KeysOfMeaning(rs, SentimentOf);
    var d := Distribution(rs);
    forall k | 0 <= k < |rs| ensures exists i :: 0 <= i < |d| && d[i].sentiment == rs[k].sentiment {
      assert SentimentOf(rs[k]) in ks;
      var i :| 0 <= i < |ks| && ks[i] == SentimentOf(rs[k]);
      assert d[i].sentiment == rs[k].sentiment;
    }
  }

  /** The counts add up to the number of turns. */
  lemma DistributionAddsUp(rs: seq<Record>)
    ensures SumOf(Distribution(rs), ShareCount) == |rs|
  {
    ShareSums(rs, KeysOf(rs, SentimentOf));
    KeySumsAddUp(rs, SentimentOf, One);
    SumOfOne(rs);
  }

  /** Each share is count / number of turns. */
  lemma DistributionShares(rs: seq<Record>)
    ensures forall i :: 0 <= i < |Distribution(rs)| ==>
      Distribution(rs)[i].share == Distribution(rs)[i].count as real / |rs| as real
  {
    var d := Distribution(rs);
    forall i | 0 <= i < |d| ensures d[i].share == d[i].count as real / |rs| as real {
      var k := KeysOf(rs, SentimentOf)[i];
      assert d[i] == LabelShareOf(rs, k);
      SentimentTurnsPositive(rs, k);
    }
  }
}
