# Transcript analysis core, modelled in Dafny

The repository is a small Streamlit app. It reads a speaker-labelled conversation
transcript, splits it into speaker turns and scores each turn. Each turn gets
a sentiment label from a Hugging Face classifier and filler-word statistics
from a fixed lexicon and a spaCy word count. Totals, a per-speaker table, a
label distribution and a word-count histogram are then shown.

This project models the sequential logic of that pipeline and proves what it
promises.

- **Transcript parsing** (`parse_transcript`). A line-oriented state machine
  over the file content. Its state is the current speaker, the pending text
  lines, a turn counter and the turns emitted so far. `Transcript.ParseTranscript`
  is the loop itself. It is proved equal to a fold (`Transcript.Parse`), and
  the fold is proved equal to an independent block-by-block reading of the
  file (`Transcript.Blocks`).
- **Label normalisation and sentiment** (`map_sentiment_label`,
  `calculate_sentiment`). A lookup keyed by the upper-cased raw label. The
  classifier is a parameter: a function from a text to either a raw label
  with a score, or a failure.
- **Filler statistics** (`calculate_filler_word_stats`). For every lexicon
  term, the number of `\b`-delimited matches that `re.findall` reports in the
  lower-cased text, summed over the lexicon. The matches are modelled as the
  engine's left-to-right, non-overlapping scan. The tokenizer's word count is
  a parameter. The ratio is guarded against a zero word count.
- **Per-turn records** (`analyze_transcript_data`). One record per parsed
  turn, built in a loop.
- **Summary arithmetic** of `display_summary_metrics_tab`, taken out of the
  rendering as functions over the records:
  - corpus totals;
  - the per-speaker table;
  - the overall label distribution;
  - the adaptive word-count bin edges and labels, their order-preserving
    de-duplication, and the bucketing of `pd.cut`.

Modules: `Text` (the Python string operations used), `Wrappers`,
`Sentiment`, `Fillers`, `Transcript`, `Analysis`, `Collections` (sums,
grouping, de-duplication), `Summary` and `Bins`.

Inputs from outside the program are parameters:

- the file read becomes the content string;
- the classifier is `classify: string -> ClassifierOutcome`;
- the spaCy count of non-punctuation, non-space tokens is
  `countWords: string -> nat`.

Two behaviours of the code are kept as written:

- A raw label outside the table is returned unchanged, in its original case
  (analysis_utils.py:31). It is not turned into an error label.
- A turn's text may be empty: a bare `Speaker A:` line still yields a turn,
  because the pending-lines list is never empty after a label match.

## Model

| member | source | states |
|---|---|---|
| Sentiment.MapSentimentLabel | analysis_utils.py:22-31 | `LABEL_0`/`NEG`, `LABEL_1`/`NEU` and `LABEL_2`/`POS`, in any letter case, map to NEGATIVE, NEUTRAL and POSITIVE; every other label is returned exactly as given |
| Sentiment.MapSentimentLabelIdempotent | analysis_utils.py:22-31 | normalising an already normalised label changes nothing |
| Sentiment.MapSentimentLabelCaseInsensitive | analysis_utils.py:31 | two raw codes that agree after upper-casing give the same canonical label |
| Sentiment.MapSentimentLabelCanonicalOrRaw | analysis_utils.py:22-31 | the result is canonical exactly when the input is a recognised code or already canonical; a changed label was a recognised code |
| Sentiment.LowerCaseCodeRecognised | analysis_utils.py:31 | `label_0` is recognised through the upper-casing and becomes NEGATIVE |
| Sentiment.LowerCaseCanonicalPassesThrough | analysis_utils.py:31 | the lower-case `positive` of the configured model is not in the table and stays lower-case |
| Sentiment.CalculateSentiment | analysis_utils.py:77-87 | empty text gives (NEUTRAL, 0.0); a classifier failure gives (ERROR, 0.0); otherwise the label is the normalised raw label and the score is the classifier's |
| Sentiment.EmptyTextSkipsClassifier | analysis_utils.py:78-79 | for empty text the result does not depend on the classifier at all |
| Sentiment.SentimentDependsOnlyOnThisText | analysis_utils.py:80-85 | the result depends on the classifier only through its answer for this text |
| Sentiment.SentimentLabelsClosed | analysis_utils.py:77-87 | when the classifier only emits table codes with scores in [0, 1], the label is canonical or ERROR and the score stays in [0, 1] |
| Fillers.FindAllCount | analysis_utils.py:97 | the left-to-right scan of `re.findall(r'\b<term>\b', …)` from a position, resuming after each match; no contract of its own: FindAllCountIsOccurrences and FindAllCountBound state what it counts |
| Fillers.LexiconCount | analysis_utils.py:94-97 | the filler count summed over a list of terms; no contract of its own: LexiconCountIsOccurrences and LexiconTermByTerm state it |
| Fillers.FillerStatsOf | analysis_utils.py:89-103 | the count, total words and ratio of one text; no contract of its own: FillerStatsMeaning states it and CalculateFillerWordStats is proved equal to it |
| Fillers.FindAllCountBound | analysis_utils.py:97 | the `re.findall` matches are disjoint, so count times term length never exceeds the text length |
| Fillers.NoOverlappingMatch | analysis_utils.py:97 | for a lexicon-shaped term, no whole-word match starts inside another |
| Fillers.FindAllCountIsOccurrences | analysis_utils.py:97 | the engine's scan count equals the number of positions where the term occurs as a whole word |
| Fillers.WholeWordNotInsideWord | analysis_utils.py:97 | a counted occurrence is never preceded or followed by a word character, so `so` inside `also` does not count |
| Fillers.EveryLexiconTermWellFormed | constants.py:3-6 | every lexicon term starts and ends with a word character, and no inner word starts with its first letter, so its whole-word matches cannot overlap |
| Fillers.LexiconCountIsOccurrences | analysis_utils.py:96-97 | the summed scan counts over a lexicon equal the summed whole-word occurrence counts |
| Fillers.CalculateFillerWordStats | analysis_utils.py:89-103 | the loop over the lexicon returns exactly the statistics function's value |
| Fillers.FillerStatsMeaning | analysis_utils.py:89-103 | empty text gives (0, 0, 0.0); otherwise the count is the whole-word occurrences in the lower-cased text, the total is the tokenizer's count, and the ratio is count/total, or 0.0 when the total is 0 |
| Fillers.FillerCountCaseInsensitive | analysis_utils.py:95-97 | any two texts equal after lower-casing have the same filler count |
| Fillers.OccurrencesSplit | analysis_utils.py:97 | a separator that is not a word character and does not occur in the term splits the count into the counts of both sides |
| Fillers.WordOccurrence | analysis_utils.py:97 | inside a single word the term counts once if it is the whole word, otherwise never |
| Fillers.GlueCount | analysis_utils.py:97 | in words glued by non-word separators, a one-word term is counted once per equal word |
| Fillers.RepeatCount | analysis_utils.py:97 | `n` space-separated copies of a one-word term contain it exactly `n` times |
| Fillers.LexiconTermByTerm | analysis_utils.py:96-97 | the lexicon total is the sum of the fifteen per-term counts, term by term |
| Fillers.RepeatedUmStats | analysis_utils.py:95-97 | `n` space-separated `um`s give a filler count of `n` |
| Fillers.FourUms | analysis_utils.py:150 | "um um um um" gives a filler count of 4, as the test comment expects |
| Transcript.ClassifyAll | analysis_utils.py:45-49 | one classified line per split line, in order, each the classification of that line |
| Transcript.Flush | analysis_utils.py:51-57 | emitting the pending turn, also used for the final flush of lines 62-68; no contract of its own: FlushEmits states it |
| Transcript.Step | analysis_utils.py:46-61 | one iteration of the loop body; no contract of its own: StepOnBlank, StepOnLabel and StepOnContinuation state it |
| Transcript.Run | analysis_utils.py:45-61 | the loop over the classified lines as a fold over Step; no contract of its own: RunIsBlocks states what it computes |
| Transcript.ParseLines | analysis_utils.py:42-68 | the parser over already split lines; no contract of its own: ParseOfLines relates it to Parse |
| Transcript.Parse | analysis_utils.py:38-68 | `parse_transcript` on the content string; no contract of its own: ParseTranscript, ParseIsBlocks and ParseShape state it |
| Transcript.MatchSpeakerLabel | analysis_utils.py:49 | a match means the line is `Speaker `, one or more ASCII letters or digits, then a colon; the match splits the line at that colon |
| Transcript.MatchSpeakerLabelComplete | analysis_utils.py:49 | every line of that shape is matched, with the speaker up to the first such colon |
| Transcript.Classify | analysis_utils.py:46-61 | a line is blank exactly when it strips to nothing; otherwise it is a label line when the stripped line matches, else a continuation carrying the stripped line |
| Transcript.ClassifyLabel | analysis_utils.py:49-59 | a label line's speaker is a `Speaker X` name at the start of the stripped line, followed by a colon, and its rest is the stripped remainder |
| Transcript.StepOnBlank | analysis_utils.py:46-48 | a whitespace-only line leaves the state untouched |
| Transcript.StepOnLabel | analysis_utils.py:50-59 | a label line flushes the pending turn, then makes its speaker current with its rest as the only pending line |
| Transcript.StepOnContinuation | analysis_utils.py:60-61 | a continuation line is appended to the pending lines when there is a speaker, and is dropped otherwise |
| Transcript.FlushEmits | analysis_utils.py:51-57 | with a speaker and pending lines, the counter goes up by one and a turn with that id, speaker and joined, stripped text is appended |
| Transcript.ParseTranscript | analysis_utils.py:38-68 | the loop over the lines, with the final flush, returns exactly the fold of the state machine over the content |
| Transcript.ParseIsBlocks | analysis_utils.py:42-68 | the state machine agrees with the block reading: each label line opens a turn whose text is its rest followed by the continuation lines up to the next label line |
| Transcript.RunIsBlocks | analysis_utils.py:42-68 | from any state with no current speaker, the machine appends exactly the block reading of the remaining lines, numbered on from its counter |
| Transcript.ParseShape | analysis_utils.py:44-68 | the number of turns is the number of label lines, so there is no turn exactly when there is no label line; ids are 1..n in order; speakers are `Speaker X` names; texts are stripped |
| Transcript.BlocksNumbered | analysis_utils.py:52-54 | the block reading has one turn per label line, numbered consecutively from the start id |
| Transcript.BlocksContents | analysis_utils.py:53-57 | every turn of the block reading has a speaker name and a stripped text |
| Transcript.BlockTextStripped | analysis_utils.py:56 | a turn's text is stripped |
| Transcript.ParseEmpty | analysis_utils.py:44-68 | empty content gives no turns |
| Transcript.BlankLineIrrelevant | analysis_utils.py:46-48 | inserting a whitespace-only line anywhere does not change the turns |
| Transcript.PreambleDropped | analysis_utils.py:60-61 | lines before the first label line never affect the result |
| Transcript.ParseOfLines | analysis_utils.py:45 | parsing the newline-joined lines is parsing those lines |
| Transcript.SingleLabelLine | analysis_utils.py:58-68 | a single label line with nothing after the colon gives one turn with empty text |
| Transcript.BareLabelGivesEmptyTurn | analysis_utils.py:49-68 | the content `Speaker A:` gives exactly one turn: id 1, speaker `Speaker A`, empty text |
| Transcript.NearMissIsContinuation | analysis_utils.py:49 | `Speaker A : hi` is not a label line but a continuation |
| Text.Strip | analysis_utils.py:46 | `str.strip()`; no contract of its own: StripIdempotent and StripMeaning state it |
| Text.Split | analysis_utils.py:45 | `str.split(sep)`: at least one piece and no piece holds the separator; SplitJoin and JoinSplit make it the inverse of Join |
| Text.Join | analysis_utils.py:56 | `sep.join(parts)`; no contract of its own: SplitJoin and JoinSplit state it |
| Text.Lower | analysis_utils.py:95 | `str.lower()`: same length, each character lower-cased |
| Text.Upper | analysis_utils.py:31 | `str.upper()`: same length, each character upper-cased |
| Text.NatToString | ui_components.py:129-141 | the decimal rendering of `max_words` in the f-string labels: non-empty and all digits; NatToStringMeaning states the rest |
| Text.NatToStringMeaning | ui_components.py:129-141 | the rendered digits denote the number, and only 0 is written with a leading `0` |
| Text.StripIdempotent | analysis_utils.py:46 | a stripped line has no whitespace at either end, and stripping again changes nothing |
| Text.StripMeaning | analysis_utils.py:46-47 | a line strips to nothing exactly when it is whitespace only |
| Text.SplitJoin | analysis_utils.py:45 | splitting newline-joined lines that hold no newline gives those lines back |
| Text.JoinSplit | analysis_utils.py:45 | joining the split pieces with the separator gives the content back |
| Analysis.RecordOf | analysis_utils.py:111-123 | the record built for one turn; no contract of its own: RecordOfMeaning states it |
| Analysis.AnalyzeTurns | analysis_utils.py:110-123 | the loop builds one record per turn, in order, each that turn's record |
| Analysis.AnalyzeTranscriptData | analysis_utils.py:105-124 | one record per parsed turn, in the same order, record `k` built from turn `k`; no turns gives no records |
| Analysis.RecordOfMeaning | analysis_utils.py:111-123 | turn number, speaker and text are copied from the turn; the sentiment and filler fields are those of the two metric functions on that text |
| Analysis.RecordsNumbered | analysis_utils.py:106-124 | the records are numbered 1..n, where n is the number of label lines, each with a speaker name; there are none exactly when there is no label line |
| Collections.Ratio | ui_components.py:62-64 | the guarded quotient: times the divisor it gives the dividend, and it is 0 when the divisor is 0 |
| Collections.Dedup | ui_components.py:143 | `list(dict.fromkeys(xs))`: never longer than its input; DedupMeaning states the rest |
| Collections.KeysOf | ui_components.py:72 | the group keys of `groupby`: no more keys than rows; KeysOfMeaning states the rest |
| Collections.DedupMeaning | ui_components.py:143 | de-duplication keeps the same elements, leaves no repeats, and keeps each element at its first occurrence, in order |
| Collections.DedupOfNoDups | ui_components.py:143 | a list without repeats is left unchanged |
| Collections.KeysOfMeaning | ui_components.py:72 | the group keys are distinct, every record's key is among them, and every key comes from some record |
| Collections.GroupSumsPartition | ui_components.py:72-75 | summing a column per group over distinct keys that cover every record gives the column's total |
| Summary.CorpusTotalsOf | ui_components.py:60-64 | the four corpus metrics; no contract of its own: CorpusTotalsMeaning states them |
| Summary.CorpusTotalsMeaning | ui_components.py:60-64 | total words and total fillers are the sums over the turns; the average times the number of turns is the total; the corpus ratio times total words is the filler total, or 0 when there are no words |
| Summary.SpeakerSummary | ui_components.py:72-79 | the per-speaker table; no contract of its own: SpeakersDistinct, SpeakersCovered and SpeakerTotalsAddUp state it |
| Summary.SpeakerRows | ui_components.py:72-79 | one row per given key, the i-th row being that key's row |
| Summary.SpeakerRowOf | ui_components.py:72-82 | one speaker's row; no contract of its own: SpeakerRowFacts and SpeakerSentimentBounded state it |
| Summary.SpeakersDistinct | ui_components.py:72-79 | the per-speaker table has one row per distinct speaker |
| Summary.SpeakersCovered | ui_components.py:72-79 | every turn's speaker has a row |
| Summary.SpeakerRowFacts | ui_components.py:72-82 | a speaker with any turn has a row with at least one turn; its average is words/turns and its ratio is fillers/words, or 0 when there are no words |
| Summary.SpeakerRowAverages | ui_components.py:81-82 | every row's average and ratio are the guarded quotients of its own totals |
| Summary.SpeakerTotalsAddUp | ui_components.py:72-75 | the rows' turns add up to the number of records, and their words and fillers add up to the corpus totals |
| Summary.SentimentCountsBounded | ui_components.py:76-78 | for any speaker, positive + neutral + negative is at most that speaker's turns |
| Summary.SpeakerSentimentBounded | ui_components.py:76-78 | in every row, positive + neutral + negative is at most its turns |
| Summary.LabelClassesDisjoint | ui_components.py:76-78 | a label falls in at most one of the three sentiment columns |
| Summary.PositiveColumnIgnoresCase | ui_components.py:76 | both `POSITIVE` and `positive` count as positive |
| Summary.NeutralColumnIgnoresCase | ui_components.py:77 | both `NEUTRAL` and `neutral` count as neutral |
| Summary.NegativeColumnIgnoresCase | ui_components.py:78 | both `NEGATIVE` and `negative` count as negative |
| Summary.ErrorInNoColumn | ui_components.py:76-78 | an ERROR turn is counted in none of the three columns |
| Summary.Distribution | ui_components.py:104-105 | the `value_counts` table; no contract of its own: LabelsDistinct and DistributionAddsUp state it |
| Summary.LabelShares | ui_components.py:104-113 | one entry per given label, the i-th entry being that label's count and share |
| Summary.LabelShareOf | ui_components.py:104-113 | one label's count and share; no contract of its own: DistributionShares states it |
| Summary.LabelsDistinct | ui_components.py:104 | the distribution has one entry per distinct label string, compared exactly, and every turn's label has an entry |
| Summary.DistributionAddsUp | ui_components.py:104-113 | the distribution's counts add up to the number of turns |
| Summary.DistributionShares | ui_components.py:113 | each share is its count divided by the number of turns |
| Bins.EdgesAsWritten | ui_components.py:127-140 | the bin edges of each branch as written; no contract of its own: BinsShape and UniqueEdgesAsWritten state them |
| Bins.UpTo | ui_components.py:129-141 | the open-ended last label `f'<lo>-{max_words}'`; no contract of its own: UpToStart and Text.NatToStringMeaning state it; LabelsAsWritten and LabelsCorrected use it |
| Bins.UpToStart | ui_components.py:129-141 | the open-ended label begins with its lower bound followed by a dash, and is longer than both |
| Bins.LabelsAsWritten | ui_components.py:127-141 | the bin labels of each branch as written; no contract of its own: BinsShape and LabelsAsWrittenDistinct state them |
| Bins.BinsShape | ui_components.py:127-141 | in every branch the edges start at 0 and end at max+1; there is one more edge than labels; there are 1 to 6 labels; the edges are the fixed edges of the branch followed by max+1 |
| Bins.UniqueEdgesAsWritten | ui_components.py:143 | de-duplication removes an edge exactly when max is 49 or 99, where max+1 repeats the fixed 50 or 100 |
| Bins.UniqueEdgesEnds | ui_components.py:143 | after de-duplication there are still at least two edges, starting at 0 and ending at max+1 |
| Bins.BinsDescendFor | ui_components.py:136-141 | for max in 31-48 or 51-98 the last edge max+1 falls below the fixed 50 or 100 edge, so the edges are not ascending |
| Bins.BinsOneEdgeShortFor | ui_components.py:136-143 | for max 49 or 99 the de-duplicated edges are as many as the labels, one short of what the labels need |
| Bins.BinsAcceptedFor | ui_components.py:127-144 | for max ≤ 30, max = 50 or max ≥ 100, the de-duplicated edges are strictly ascending and one more than the labels, and the labels are distinct |
| Bins.BinsAcceptedExactly | ui_components.py:127-144 | the edges and labels are valid for `pd.cut` (edges strictly ascending, one more edge than labels, labels distinct) if and only if max ≤ 30, max = 50 or max ≥ 100 |
| Bins.BinsGapWitness | ui_components.py:136-143 | at max 40 the edges are [0, 10, 20, 30, 50, 41]; at max 49 they are [0, 10, 20, 30, 50] against 5 labels |
| Bins.LabelsAsWrittenDistinct | ui_components.py:127-141 | in every branch the written labels are pairwise distinct, as `pd.cut` demands of ordered labels |
| Bins.LabelsCorrectedDistinct | ui_components.py:127-141 | in every branch the corrected labels are pairwise distinct |
| Bins.EdgesCorrected | ui_components.py:127-140 | the corrected edges of the finding below; no contract of its own: BinsCorrectedAccepted and BinsCorrectedAgrees state them |
| Bins.LabelsCorrected | ui_components.py:127-141 | the corrected labels; no contract of its own: LabelsCorrectedDistinct and BinsCorrectedAgrees state them |
| Bins.BinsCorrectedAccepted | ui_components.py:127-144 | the corrected edges need no de-duplication, are valid with their labels for every max, and run from 0 to max+1 |
| Bins.BinsCorrectedAgrees | ui_components.py:127-141 | the corrected edges and labels are the written ones for max ≤ 30 and max > 100 |
| Bins.InBucket | ui_components.py:144 | membership of a value in the k-th interval with `right=True, include_lowest=True`; no contract of its own: Bucket, BucketUnique and OneLabelledBucket state it |
| Bins.Bucket | ui_components.py:144 | for ascending edges and a value between the first and last edge, the chosen interval contains the value: right-closed, with the lowest edge included |
| Bins.BucketUnique | ui_components.py:144 | over ascending edges a value lies in at most one interval |
| Bins.OneLabelledBucket | ui_components.py:144 | with edges valid for their labels, every value between the ends lies in exactly one interval, and that interval has a label |
| Bins.MaxWords | ui_components.py:117 | the maximum bounds every turn's word count and is attained by one |
| Bins.EveryTurnInOneBucket | ui_components.py:117-144 | whenever the written edges are valid, every turn's word count lies in exactly one labelled interval |
| Bins.EveryTurnInOneCorrectedBucket | ui_components.py:117-144 | with the corrected edges, every turn's word count lies in exactly one labelled interval, for every possible maximum |

## Left out

- Reading the file, and the two exception branches that report through
  `st.error` and return no turns (analysis_utils.py:40-41, 69-74). The
  parser takes the content string. Which file-system or decoding errors occur
  is not modelled.
- Model loading, classifier inference and spaCy tokenisation
  (analysis_utils.py:9-20, 81, 92-93). These are the parameters `classify`
  and `countWords`.
- Sentiment.CalculateSentiment: the `round(score, 4)` is not modelled; the
  classifier's score is passed through exactly, because this is
  floating-point formatting.
- Fillers.FillerStatsMeaning: the ratio is exact, not rounded to four places
  (analysis_utils.py:102), for the same reason.
- Text.Upper and Text.Lower change only ASCII letters, and the word class
  `\w` is the ASCII one, because Python's full Unicode case mapping and word
  class are not part of this model.
- Fillers.FindAllCountIsOccurrences: the regular-expression engine is
  modelled only for the fixed shape `\b<term>\b` with a literal term.
- Summary.SpeakersDistinct: rows come out in order of first appearance; pandas
  sorts them by speaker. The same holds for Summary.LabelsDistinct, where
  `value_counts` orders by count. Only the contents are modelled, not the
  display order.
- Summary.SpeakerRowFacts: the Filler_Ratio column is modelled as the plain
  guarded division. The string formatting at ui_components.py:82 is not
  modelled: it tests `.any() > 0` on the whole column and skips NaN. A speaker
  with fillers but no words gets `inf` from the division there, shown as
  "inf%" whenever some speaker has words; the model gives 0.
- Display formatting is not modelled: thousands separators, `.1f`/`.1%`,
  and the `round(1)` of the per-speaker average (ui_components.py:67-69, 81,
  113).
- The min, median and mean metrics (ui_components.py:116-124), and all
  Streamlit, plotly and CSV rendering.
- The in-place assignment of the bucket column at ui_components.py:144 is
  not modelled; `Bins.Bucket` gives the bucket of one value instead.
- Fillers.FourUms is the only test-comment expectation proved
  (analysis_utils.py:145-153). The expected counts of 3 for the two longer
  sentences are not proved: each needs every one of the fifteen terms
  evaluated on a concrete sentence. The general lemmas cover them instead
  (Fillers.LexiconTermByTerm, Fillers.OccurrencesSplit,
  Fillers.WordOccurrence). OccurrencesSplit applies only at a separator that
  the term does not contain, so a space splits the count for the one-word
  terms but not for the multi-word ones such as "you know".
- The `__main__` test driver and its printing (analysis_utils.py:126-156).
- app.py is not part of this model: it only orchestrates the UI. It imports
  two functions that analysis.py does not define.
- analysis.py is not part of this model: it is a thin wrapper over the
  classifier pipeline.

## Findings

| source | as written | input that shows it | evidently intended | confidence | as-written member | corrected member |
|---|---|---|---|---|---|---|
| ui_components.py:136-143 | For max 31-50 the edges are `[0, 10, 20, 30, 50, max+1]`, and for max > 50 they are `[0, 10, 20, 30, 50, 100, max+1]`. The last edge can fall below the fixed 50 or 100 edge, or repeat it, and `pd.cut` then refuses the edges. | max = 40 gives edges `[0, 10, 20, 30, 50, 41]`, which are not ascending. max = 49 gives `[0, 10, 20, 30, 50]` after de-duplication, against 5 labels. | The pattern of the earlier branches: edges `[0, 10, 20, 30, max+1]` with last label `31-max` for max ≤ 50, `[…, 50, max+1]` for max ≤ 100, and `[…, 100, max+1]` above. These are valid for every max and equal the written bins for max ≤ 30 and max > 100. | not executed | Bins.BinsAcceptedExactly, Bins.BinsDescendFor, Bins.BinsOneEdgeShortFor, Bins.BinsGapWitness | Bins.BinsCorrectedAccepted, Bins.EveryTurnInOneCorrectedBucket |
