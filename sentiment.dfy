/** Label normalisation and the sentiment wrapper of analysis_utils.py.
    The classifier itself is an input: a total function from a text to what
    the external pipeline would return, or to a failure. */
module Sentiment {
  import opened Text

  /** The normalisation table, keyed by the upper-cased raw label. */
  const LabelMap: map<string, string> := map[
    "LABEL_0" := "NEGATIVE",
    "LABEL_1" := "NEUTRAL",
    "LABEL_2" := "POSITIVE",
    "NEG" := "NEGATIVE",
    "NEU" := "NEUTRAL",
    "POS" := "POSITIVE"
  ]

  predicate IsCanonical(s: string)
  {
    s == "NEGATIVE" || s == "NEUTRAL" || s == "POSITIVE"
  }

  /** The raw labels the table recognises (after upper-casing). */
  predicate IsNegativeCode(key: string) { key == "LABEL_0" || key == "NEG" }
  predicate IsNeutralCode(key: string) { key == "LABEL_1" || key == "NEU" }
  predicate IsPositiveCode(key: string) { key == "LABEL_2" || key == "POS" }
  predicate IsCode(key: string) { IsNegativeCode(key) || IsNeutralCode(key) || IsPositiveCode(key) }

  /** `map_sentiment_label`: recognised codes become canonical, in any case;
      every other label comes back exactly as it was given. */
  function MapSentimentLabel(raw: string): (r: string)
    ensures IsNegativeCode(Upper(raw)) ==> r == "NEGATIVE"
    ensures IsNeutralCode(Upper(raw)) ==> r == "NEUTRAL"
    ensures IsPositiveCode(Upper(raw)) ==> r == "POSITIVE"
    ensures !IsCode(Upper(raw)) ==> r == raw
  {
    var key := Upper(raw);
    if key in LabelMap then LabelMap[key] else raw
  }

  lemma CanonicalIsNotCode(s: string)
    requires IsCanonical(s)
    ensures Upper(s) == s && !IsCode(s)
  {
    NoLowerKept(s);
  }

  /** Normalising twice is normalising once: the canonical labels are not
      codes themselves. */
  lemma MapSentimentLabelIdempotent(raw: string)
    ensures MapSentimentLabel(MapSentimentLabel(raw)) == MapSentimentLabel(raw)
  {
    if IsCode(Upper(raw)) {
      CanonicalIsNotCode(MapSentimentLabel(raw));
    }
  }

  /** Two raw labels that differ only in case normalise alike when either is a code. */
  lemma MapSentimentLabelCaseInsensitive(a: string, b: string)
    requires Upper(a) == Upper(b) && IsCode(Upper(a))
    ensures MapSentimentLabel(a) == MapSentimentLabel(b)
    ensures IsCanonical(MapSentimentLabel(a))
  {
  }

  /** The result is canonical exactly when the raw label is a code; otherwise
      the raw label passes through. */
  lemma MapSentimentLabelCanonicalOrRaw(raw: string)
    ensures IsCanonical(MapSentimentLabel(raw)) <==> (IsCode(Upper(raw)) || IsCanonical(raw))
    ensures MapSentimentLabel(raw) != raw ==> IsCode(Upper(raw))
  {
  }

  /** `label_0` is recognised in lower case. */
  lemma LowerCaseCodeRecognised()
    ensures MapSentimentLabel("label_0") == "NEGATIVE"
  {
    UpperMatches("label_0", "LABEL_0");
  }

  /** The lower-case `positive` that some models emit is not a code and stays
      lower-case. */
  lemma LowerCaseCanonicalPassesThrough()
    ensures MapSentimentLabel("positive") == "positive"
  {
    UpperMatches("positive", "POSITIVE");
  }

  /** What the external pipeline gives back for one text: its first result,
      or a failure (an exception anywhere in the call or in reading the result). */
  datatype ClassifierOutcome = Classified(rawLabel: string, score: real) | Failed

  datatype SentimentResult = SentimentResult(sentiment: string, score: real)

  /** `calculate_sentiment`. */
  function CalculateSentiment(text: string, classify: string -> ClassifierOutcome): (r: SentimentResult)
    ensures text == "" ==> r == SentimentResult("NEUTRAL", 0.0)
    ensures text != "" && classify(text).Failed? ==> r == SentimentResult("ERROR", 0.0)
    ensures text != "" && classify(text).Classified? ==>
      r.sentiment == MapSentimentLabel(classify(text).rawLabel) && r.score == classify(text).score
  {
    if text == "" then SentimentResult("NEUTRAL", 0.0)
    else match classify(text)
      case Failed => SentimentResult("ERROR", 0.0)
      case Classified(raw, score) => SentimentResult(MapSentimentLabel(raw), score)
  }

  /** Empty text never reaches the classifier: any two classifiers agree on it. */
  lemma EmptyTextSkipsClassifier(c1: string -> ClassifierOutcome, c2: string -> ClassifierOutcome)
    ensures CalculateSentiment("", c1) == CalculateSentiment("", c2)
    ensures CalculateSentiment("", c1).sentiment == "NEUTRAL"
  {
  }

  /** The result depends on the classifier only through its answer for this text. */
  lemma SentimentDependsOnlyOnThisText(text: string, c1: string -> ClassifierOutcome, c2: string -> ClassifierOutcome)
    requires c1(text) == c2(text)
    ensures CalculateSentiment(text, c1) == CalculateSentiment(text, c2)
  {
  }

  /** When the classifier speaks only in codes (in any case) with scores in
      [0, 1], every result is one of the four labels with a score in [0, 1]. */
  lemma SentimentLabelsClosed(text: string, classify: string -> ClassifierOutcome)
    requires classify(text).Classified? ==>
      IsCode(Upper(classify(text).rawLabel)) && 0.0 <= classify(text).score <= 1.0
    ensures IsCanonical(CalculateSentiment(text, classify).sentiment) || CalculateSentiment(text, classify).sentiment == "ERROR"
    ensures 0.0 <= CalculateSentiment(text, classify).score <= 1.0
  {
  }
}
