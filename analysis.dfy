/** `analyze_transcript_data` of analysis_utils.py: one record per parsed
    turn, holding the turn, its sentiment and its filler statistics. */
module Analysis {
  import opened Text
  import opened Transcript
  import opened Sentiment
  import opened Fillers

  /** One row of the analysis table. */
  datatype Record = Record(
    turnNum: nat,
    speaker: string,
    dialogue: string,
    sentiment: string,
    score: real,
    fillerWords: nat,
    totalWords: nat,
    fillerRatio: real)

  /** The record the loop builds for one turn. */
  function RecordOf(turn: Turn, classify: string -> ClassifierOutcome, countWords: string -> nat): Record
  {
    var s := CalculateSentiment(turn.text, classify);
    var f := FillerStatsOf(turn.text, countWords);
    Record(turn.id, turn.speaker, turn.text, s.sentiment, s.score, f.count, f.totalWords, f.ratio)
  }

  function RecordsOf(turns: seq<Turn>, classify: string -> ClassifierOutcome, countWords: string -> nat): (rs: seq<Record>)
    ensures |rs| == |turns|
  {
    seq(|turns|, k requires 0 <= k < |turns| => RecordOf(turns[k], classify, countWords))
  }

  /** The loop of `analyze_transcript_data`: one record per turn, in order. */
  method AnalyzeTurns(dialogueTurns: seq<Turn>, classify: string -> ClassifierOutcome, countWords: string -> nat)
    returns (results: seq<Record>)
    ensures |results| == |dialogueTurns|
    ensures forall k :: 0 <= k < |results| ==> results[k] == RecordOf(dialogueTurns[k], classify, countWords)
  {
    results := [];
    for k := 0 to |dialogueTurns|
      invariant |results| == k
      invariant forall i :: 0 <= i < k ==> results[i] == RecordOf(dialogueTurns[i], classify, countWords)
    {
      var text := dialogueTurns[k].text;
      var sentimentData := CalculateSentiment(text, classify);
      var fillerStats := CalculateFillerWordStats(text, countWords);
      var record := Record(dialogueTurns[k].id, dialogueTurns[k].speaker, text,
                           sentimentData.sentiment, sentimentData.score,
                           fillerStats.count, fillerStats.totalWords, fillerStats.ratio);
      results := results + [record];
    }
  }

  /** `analyze_transcript_data`, reading the transcript from its content. */
  method AnalyzeTranscriptData(content: string, classify: string -> ClassifierOutcome, countWords: string -> nat)
    returns (results: seq<Record>)
    ensures |results| == |Parse(content)|
    ensures forall k :: 0 <= k < |results| ==> results[k] == RecordOf(Parse(content)[k], classify, countWords)
  {
    var dialogueTurns := ParseTranscript(content);
    if |dialogueTurns| == 0 {
      return [];
    }
    results := AnalyzeTurns(dialogueTurns, classify, countWords);
  }

  /** A record's metrics come from its turn's text alone: empty text is
      NEUTRAL with score 0 and no words, without consulting the classifier or
      the word counter; otherwise the filler count is the number of
      whole-word lexicon occurrences and the ratio is guarded against zero. */
  lemma RecordOfMeaning(turn: Turn, classify: string -> ClassifierOutcome, countWords: string -> nat)
    ensures var r := RecordOf(turn, classify, countWords);
      r.turnNum == turn.id && r.speaker == turn.speaker && r.dialogue == turn.text
    ensures var r := RecordOf(turn, classify, countWords);
      var s := CalculateSentiment(turn.text, classify);
      r.sentiment == s.sentiment && r.score == s.score
    ensures var r := RecordOf(turn, classify, countWords);
      turn.text == "" ==>
        r.sentiment == "NEUTRAL" && r.score == 0.0
        && r.fillerWords == 0 && r.totalWords == 0 && r.fillerRatio == 0.0
    ensures var r := RecordOf(turn, classify, countWords);
      turn.text != "" ==>
        r.fillerWords == LexiconOccurrences(Lower(turn.text), FillerWords)
        && r.totalWords == countWords(turn.text)
        && r.fillerRatio == (if r.totalWords > 0 then r.fillerWords as real / r.totalWords as real else 0.0)
  {
    FillerStatsMeaning(turn.text, countWords);
  }

  /** One record per turn of the transcript, numbered 1..n; no turn means
      no record. */
  lemma RecordsNumbered(content: string, classify: string -> ClassifierOutcome, countWords: string -> nat)
    ensures var rs := RecordsOf(Parse(content), classify, countWords);
      |rs| == NumLabels(ClassifyAll(Split(content, '\n')))
      && (rs == [] <==> NumLabels(ClassifyAll(Split(content, '\n'))) == 0)
      && (forall k :: 0 <= k < |rs| ==> rs[k].turnNum == k + 1 && IsSpeakerName(rs[k].speaker))
  {
    ParseShape(content);
  }
}
