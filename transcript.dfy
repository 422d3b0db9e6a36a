/** `parse_transcript` of analysis_utils.py on the content of the file: a
    line-oriented state machine that turns `Speaker <Id>: <text>` lines and
    the lines that follow them into numbered turns. */
module Transcript {
  import opened Text
  import opened Wrappers

  datatype Turn = Turn(id: nat, speaker: string, text: string)

  const SpeakerWord: string := "Speaker "

  /** The end of the run of `[A-Za-z0-9]` characters that starts at `i`. */
  function AlnumEnd(s: string, i: nat): (j: nat)
    requires i <= |s|
    ensures i <= j <= |s|
    ensures forall k :: i <= k < j ==> IsAlnum(s[k])
    ensures j == |s| || !IsAlnum(s[j])
    decreases |s| - i
  {
    if i < |s| && IsAlnum(s[i]) then AlnumEnd(s, i + 1) else i
  }

  /** `s` matches `^(Speaker [A-Za-z0-9]+):` with the colon at `j`. */
  ghost predicate LabelColonAt(s: string, j: nat)
  {
    |SpeakerWord| < j < |s| && s[..|SpeakerWord|] == SpeakerWord
    && (forall k :: |SpeakerWord| <= k < j ==> IsAlnum(s[k])) && s[j] == ':'
  }

  datatype LabelMatch = LabelMatch(speaker: string, rest: string)

  /** `re.match(r"^(Speaker [A-Za-z0-9]+):(.*)", s)` on a line that holds no
      newline: group 1 and group 2, or no match. */
  function MatchSpeakerLabel(s: string): (m: Option<LabelMatch>)
    ensures m.Some? ==> LabelColonAt(s, |m.value.speaker|)
    ensures m.Some? ==> s == m.value.speaker + ":" + m.value.rest
  {
    if |s| >= |SpeakerWord| && s[..|SpeakerWord|] == SpeakerWord then
      var j := AlnumEnd(s, |SpeakerWord|);
      if j > |SpeakerWord| && j < |s| && s[j] == ':' then
        assert s == s[..j] + ":" + s[j + 1..];
        Some(LabelMatch(s[..j], s[j + 1..]))
      else
        None
    else None
  }

  /** Whenever the line has the label shape with its colon at `j`, the match
      is found there: group 1 is everything before that colon and group 2
      everything after it. */
  lemma MatchSpeakerLabelComplete(s: string, j: nat)
    requires LabelColonAt(s, j)
    ensures MatchSpeakerLabel(s) == Some(LabelMatch(s[..j], s[j + 1..]))
  {
    assert !IsAlnum(s[j]);
  }

  /** What one line of the file is to the parser. */
  datatype Line =
    | Blank
    | Label(speaker: string, rest: string)
    | Continuation(text: string)

  function Classify(line: string): (l: Line)
    ensures l.Blank? <==> Strip(line) == ""
    ensures l.Continuation? ==> l.text == Strip(line) && MatchSpeakerLabel(Strip(line)).None?
    ensures l.Label? ==> MatchSpeakerLabel(Strip(line)).Some?
  {
    var stripped := Strip(line);
    if stripped == "" then Blank
    else match MatchSpeakerLabel(stripped)
      case Some(m) => Label(Strip(m.speaker), Strip(m.rest))
      case None => Continuation(stripped)
  }

  function ClassifyAll(lines: seq<string>): (ls: seq<Line>)
    ensures |ls| == |lines|
    ensures forall i :: 0 <= i < |lines| ==> ls[i] == Classify(lines[i])
  {
    seq(|lines|, i requires 0 <= i < |lines| => Classify(lines[i]))
  }

  /** The loop's variables: current speaker, pending text lines, turn
      counter and the turns so far. */
  datatype ParserState = ParserState(speaker: Option<string>, pending: seq<string>, counter: nat, turns: seq<Turn>)

  const Init := ParserState(None, [], 0, [])

  /** Emits the pending turn, when there is one. */
  function Flush(st: ParserState): ParserState
  {
    if st.speaker.Some? && |st.pending| > 0 then
      ParserState(st.speaker, st.pending, st.counter + 1,
                  st.turns + [Turn(st.counter + 1, st.speaker.value, Strip(Join(st.pending, ' ')))])
    else st
  }

  function Step(st: ParserState, l: Line): ParserState
  {
    match l
    case Blank => st
    case Label(sp, rest) => Flush(st).(speaker := Some(sp), pending := [rest])
    case Continuation(t) => if st.speaker.Some? then st.(pending := st.pending + [t]) else st
  }

  function Run(st: ParserState, ls: seq<Line>): ParserState
    decreases |ls|
  {
    if ls == [] then st else Run(Step(st, ls[0]), ls[1..])
  }

  function ParseLines(lines: seq<string>): seq<Turn>
  {
    Flush(Run(Init, ClassifyAll(lines))).turns
  }

  /** The turns `parse_transcript` returns for the file content. */
  function Parse(content: string): seq<Turn>
  {
    ParseLines(Split(content, '\n'))
  }

  lemma {:induction false} RunAppend(st: ParserState, a: seq<Line>, b: seq<Line>)
    ensures Run(st, a + b) == Run(Run(st, a), b)
    decreases |a|
  {
    if a == [] {
      assert a + b == b;
    } else {
      assert (a + b)[0] == a[0] && (a + b)[1..] == a[1..] + b;
      calc {
        Run(st, a + b);
        Run(Step(st, a[0]), a[1..] + b);
        { RunAppend(Step(st, a[0]), a[1..], b); }
        Run(Run(Step(st, a[0]), a[1..]), b);
      }
    }
  }

  lemma RunSnoc(st: ParserState, ls: seq<Line>, l: Line)
    ensures Run(st, ls + [l]) == Step(Run(st, ls), l)
  {
    RunAppend(st, ls, [l]);
    assert Run(Run(st, ls), [l]) == Run(Step(Run(st, ls), l), []);
  }

  lemma ClassifyAllSnoc(lines: seq<string>, i: nat)
    requires i < |lines|
    ensures ClassifyAll(lines[..i + 1]) == ClassifyAll(lines[..i]) + [Classify(lines[i])]
  {
  }

  lemma RunPrefixStep(lines: seq<string>, i: nat)
    requires i < |lines|
    ensures Run(Init, ClassifyAll(lines[..i + 1])) == Step(Run(Init, ClassifyAll(lines[..i])), Classify(lines[i]))
  {
    ClassifyAllSnoc(lines, i);
    RunSnoc(Init, ClassifyAll(lines[..i]), Classify(lines[i]));
  }

  lemma StepOnBlank(st: ParserState, line: string)
    requires Strip(line) == ""
    ensures Step(st, Classify(line)) == st
  {
  }

  lemma StepOnLabel(st: ParserState, line: string, m: LabelMatch)
    requires Strip(line) != "" && MatchSpeakerLabel(Strip(line)) == Some(m)
    ensures Step(st, Classify(line)) == Flush(st).(speaker := Some(Strip(m.speaker)), pending := [Strip(m.rest)])
  {
  }

  lemma StepOnContinuation(st: ParserState, line: string)
    requires Strip(line) != "" && MatchSpeakerLabel(Strip(line)).None?
    ensures Step(st, Classify(line)) == if st.speaker.Some? then st.(pending := st.pending + [Strip(line)]) else st
  {
  }

  lemma FlushEmits(st: ParserState)
    requires st.speaker.Some? && |st.pending| > 0
    ensures Flush(st) == ParserState(st.speaker, st.pending, st.counter + 1,
                                     st.turns + [Turn(st.counter + 1, st.speaker.value, Strip(Join(st.pending, ' ')))])
  {
  }

  lemma FlushKeeps(st: ParserState)
    requires !(st.speaker.Some? && |st.pending| > 0)
    ensures Flush(st) == st
  {
  }

  /** `parse_transcript`. */
  method ParseTranscript(content: string) returns (turns: seq<Turn>)
    ensures turns == Parse(content)
  {
    var lines := Split(content, '\n');
    var currentSpeaker: Option<string> := None;
    var currentTextLines: seq<string> := [];
    var turnCounter: nat := 0;
    turns := [];
    for i := 0 to |lines|
      invariant ParserState(currentSpeaker, currentTextLines, turnCounter, turns) == Run(Init, ClassifyAll(lines[..i]))
    {
      ghost var before := ParserState(currentSpeaker, currentTextLines, turnCounter, turns);
      RunPrefixStep(lines, i);
      var strippedLine := Strip(lines[i]);
      if strippedLine == "" {
        StepOnBlank(before, lines[i]);
      } else {
        var m := MatchSpeakerLabel(strippedLine);
        if m.Some? {
          StepOnLabel(before, lines[i], m.value);
          if currentSpeaker.Some? && |currentTextLines| > 0 {
            FlushEmits(before);
            turnCounter := turnCounter + 1;
            turns := turns + [Turn(turnCounter, currentSpeaker.value, Strip(Join(currentTextLines, ' ')))];
          } else {
            FlushKeeps(before);
          }
          currentSpeaker := Some(Strip(m.value.speaker));
          currentTextLines := [Strip(m.value.rest)];
        } else {
          StepOnContinuation(before, lines[i]);
          if currentSpeaker.Some? {
            currentTextLines := currentTextLines + [strippedLine];
          }
        }
      }
    }
    assert lines[..|lines|] == lines;
    ghost var final := ParserState(currentSpeaker, currentTextLines, turnCounter, turns);
    assert final == Run(Init, ClassifyAll(lines));
    if currentSpeaker.Some? && |currentTextLines| > 0 {
      FlushEmits(final);
      turnCounter := turnCounter + 1;
      turns := turns + [Turn(turnCounter, currentSpeaker.value, Strip(Join(currentTextLines, ' ')))];
    } else {
      FlushKeeps(final);
    }
    assert turns == Flush(final).turns;
  }

  // ---------------------------------------------------------------------
  // What the state machine computes, read turn by turn.

  /** The first label line at or after `i`, or the end. */
  function NextLabel(ls: seq<Line>, i: nat): (j: nat)
    requires i <= |ls|
    ensures i <= j <= |ls|
    ensures forall k :: i <= k < j ==> !ls[k].Label?
    ensures j < |ls| ==> ls[j].Label?
    decreases |ls| - i
  {
    if i == |ls| || ls[i].Label? then i else NextLabel(ls, i + 1)
  }

  /** The texts of the continuation lines, in order (blank lines give none). */
  function ContinuationTexts(ls: seq<Line>): seq<string>
  {
    if ls == [] then []
    else (if ls[0].Continuation? then [ls[0].text] else []) + ContinuationTexts(ls[1..])
  }

  /** Reference reading of a transcript: lines before the first label line
      are dropped, and every label line opens a turn whose text is the rest
      of that line followed by the continuation lines up to the next label
      line, joined with single spaces and stripped. */
  function Blocks(ls: seq<Line>, id: nat): seq<Turn>
    decreases |ls|
  {
    if ls == [] then []
    else if ls[0].Label? then
      var j := NextLabel(ls, 1);
      [Turn(id, ls[0].speaker, BlockText(ls, j))] + Blocks(ls[j..], id + 1)
    else Blocks(ls[1..], id)
  }

  /** The text of the turn a label line opens, up to line `j`. */
  function BlockText(ls: seq<Line>, j: nat): string
    requires 1 <= j <= |ls| && ls[0].Label?
  {
    Strip(Join([ls[0].rest] + ContinuationTexts(ls[1..j]), ' '))
  }

  function NumLabels(ls: seq<Line>): nat
  {
    if ls == [] then 0 else (if ls[0].Label? then 1 else 0) + NumLabels(ls[1..])
  }

  function Reset(st: ParserState): ParserState
  {
    st.(speaker := None, pending := [])
  }

  /** The texts a non-label line adds to the pending text. */
  function TextOf(l: Line): seq<string>
  {
    if l.Continuation? then [l.text] else []
  }

  lemma StepOverContinuation(st: ParserState, l: Line)
    requires !l.Label?
    ensures st.speaker.Some? ==> Step(st, l) == st.(pending := st.pending + TextOf(l))
    ensures st.speaker.None? ==> Step(st, l) == st
  {
    if !l.Continuation? {
      assert st.pending + [] == st.pending;
    }
  }

  lemma {:induction false} RunOverContinuations(st: ParserState, ls: seq<Line>)
    requires forall k :: 0 <= k < |ls| ==> !ls[k].Label?
    ensures st.speaker.Some? ==> Run(st, ls) == st.(pending := st.pending + ContinuationTexts(ls))
    ensures st.speaker.None? ==> Run(st, ls) == st
    decreases |ls|
  {
    if ls != [] {
      StepOverContinuation(st, ls[0]);
      RunOverContinuations(Step(st, ls[0]), ls[1..]);
      assert ContinuationTexts(ls) == TextOf(ls[0]) + ContinuationTexts(ls[1..]);
      assert st.pending + TextOf(ls[0]) + ContinuationTexts(ls[1..]) == st.pending + ContinuationTexts(ls);
    } else {
      assert st.pending + [] == st.pending;
    }
  }

  /** A label line flushes whatever was pending, so what came before it
      matters only through the turns already emitted. */
  lemma RunFromLabel(st: ParserState, ls: seq<Line>)
    requires ls != [] && ls[0].Label?
    ensures Run(st, ls) == Run(Reset(Flush(st)), ls)
  {
    assert Step(st, ls[0]) == Step(Reset(Flush(st)), ls[0]);
  }

  /** From no current speaker, a label line and the continuation lines after
      it leave that speaker pending with the label's rest and their texts. */
  lemma RunThroughBlock(st: ParserState, ls: seq<Line>)
    requires st.speaker.None? && ls != [] && ls[0].Label?
    ensures var j := NextLabel(ls, 1);
      Run(st, ls[..j]) == st.(speaker := Some(ls[0].speaker), pending := [ls[0].rest] + ContinuationTexts(ls[1..j]))
  {
    var j := NextLabel(ls, 1);
    assert ls[..j][0] == ls[0] && ls[..j][1..] == ls[1..j];
    var s1 := Step(st, ls[0]);
    assert s1 == st.(speaker := Some(ls[0].speaker), pending := [ls[0].rest]);
    RunOverContinuations(s1, ls[1..j]);
  }

  /** The turn a label line opens, numbered `id`. */
  function BlockTurn(ls: seq<Line>, id: nat): Turn
    requires ls != [] && ls[0].Label?
  {
    Turn(id, ls[0].speaker, BlockText(ls, NextLabel(ls, 1)))
  }

  /** The state after a turn is emitted: no speaker and nothing pending. */
  function Emitted(st: ParserState, t: Turn): ParserState
  {
    ParserState(None, [], st.counter + 1, st.turns + [t])
  }

  function AfterBlock(st: ParserState, ls: seq<Line>): ParserState
    requires ls != [] && ls[0].Label?
  {
    Emitted(st, BlockTurn(ls, st.counter + 1))
  }

  /** The machine after a label line and its continuation lines. */
  lemma {:induction false} RunBlockPrefix(st: ParserState, ls: seq<Line>)
    requires st.speaker.None? && ls != [] && ls[0].Label?
    ensures var j := NextLabel(ls, 1);
      Run(st, ls) == Run(Run(st, ls[..j]), ls[j..])
      && Reset(Flush(Run(st, ls[..j]))) == AfterBlock(st, ls)
      && Flush(Run(st, ls[..j])).turns == AfterBlock(st, ls).turns
  {
    var j := NextLabel(ls, 1);
    assert ls == ls[..j] + ls[j..];
    RunAppend(st, ls[..j], ls[j..]);
    RunThroughBlock(st, ls);
    FlushEmits(Run(st, ls[..j]));
  }

  /** The last block: its turn is the last one emitted. */
  lemma RunLastBlock(st: ParserState, ls: seq<Line>)
    requires st.speaker.None? && ls != [] && ls[0].Label? && NextLabel(ls, 1) == |ls|
    ensures Flush(Run(st, ls)).turns == AfterBlock(st, ls).turns
  {
    RunBlockPrefix(st, ls);
    assert ls[..|ls|] == ls;
  }

  /** A block followed by another label line: the machine goes on from the
      flushed state. */
  lemma RunMiddleBlock(st: ParserState, ls: seq<Line>)
    requires st.speaker.None? && ls != [] && ls[0].Label? && NextLabel(ls, 1) < |ls|
    ensures Run(st, ls) == Run(AfterBlock(st, ls), ls[NextLabel(ls, 1)..])
  {
    var j := NextLabel(ls, 1);
    RunBlockPrefix(st, ls);
    RunFromLabel(Run(st, ls[..j]), ls[j..]);
  }

  lemma {:induction false} RunIsBlocks(st: ParserState, ls: seq<Line>)
    requires st.speaker.None?
    ensures Flush(Run(st, ls)).turns == st.turns + Blocks(ls, st.counter + 1)
    decreases |ls|, 1
  {
    if ls == [] {
      assert st.turns + [] == st.turns;
    } else if !ls[0].Label? {
      assert Step(st, ls[0]) == st;
      RunIsBlocks(st, ls[1..]);
    } else {
      RunIsBlocksAtLabel(st, ls);
    }
  }

  lemma {:induction false} RunIsBlocksAtLabel(st: ParserState, ls: seq<Line>)
    requires st.speaker.None? && ls != [] && ls[0].Label?
    ensures Flush(Run(st, ls)).turns == st.turns + Blocks(ls, st.counter + 1)
    decreases |ls|, 0
  {
    var j := NextLabel(ls, 1);
    if j == |ls| {
      LastBlockIsBlocks(st, ls);
    } else {
      RunIsBlocks(AfterBlock(st, ls), ls[j..]);
      MiddleBlockIsBlocks(st, ls);
    }
  }

  lemma LastBlockIsBlocks(st: ParserState, ls: seq<Line>)
    requires st.speaker.None? && ls != [] && ls[0].Label? && NextLabel(ls, 1) == |ls|
    ensures Flush(Run(st, ls)).turns == st.turns + Blocks(ls, st.counter + 1)
  {
    var turn := Turn(st.counter + 1, ls[0].speaker, BlockText(ls, |ls|));
    BlocksAtLabel(ls, st.counter + 1);
    RunLastBlock(st, ls);
    assert Blocks(ls[|ls|..], st.counter + 2) == [];
    assert Blocks(ls, st.counter + 1) == [turn];
  }

  lemma MiddleBlockIsBlocks(st: ParserState, ls: seq<Line>)
    requires st.speaker.None? && ls != [] && ls[0].Label? && NextLabel(ls, 1) < |ls|
    requires var after := AfterBlock(st, ls);
      Flush(Run(after, ls[NextLabel(ls, 1)..])).turns == after.turns + Blocks(ls[NextLabel(ls, 1)..], after.counter + 1)
    ensures Flush(Run(st, ls)).turns == st.turns + Blocks(ls, st.counter + 1)
  {
    BlocksAtLabel(ls, st.counter + 1);
    RunMiddleBlock(st, ls);
    MiddleBlockRun(st, ls);
    MiddleBlockTurns(Flush(Run(st, ls)).turns, st, ls);
  }

  /** What the machine emits from a middle block on is what it emits from
      the flushed state on. */
  lemma MiddleBlockRun(st: ParserState, ls: seq<Line>)
    requires st.speaker.None? && ls != [] && ls[0].Label? && NextLabel(ls, 1) < |ls|
    requires Run(st, ls) == Run(AfterBlock(st, ls), ls[NextLabel(ls, 1)..])
    requires var after := AfterBlock(st, ls);
      Flush(Run(after, ls[NextLabel(ls, 1)..])).turns == after.turns + Blocks(ls[NextLabel(ls, 1)..], after.counter + 1)
    ensures var after := AfterBlock(st, ls);
      Flush(Run(st, ls)).turns == after.turns + Blocks(ls[NextLabel(ls, 1)..], after.counter + 1)
  {
  }

  /** The turns of a middle block and of what follows it, put together. */
  lemma MiddleBlockTurns(x: seq<Turn>, st: ParserState, ls: seq<Line>)
    requires st.speaker.None? && ls != [] && ls[0].Label? && NextLabel(ls, 1) < |ls|
    requires var after := AfterBlock(st, ls);
      x == after.turns + Blocks(ls[NextLabel(ls, 1)..], after.counter + 1)
    requires Blocks(ls, st.counter + 1) == [BlockTurn(ls, st.counter + 1)] + Blocks(ls[NextLabel(ls, 1)..], st.counter + 1 + 1)
    ensures x == st.turns + Blocks(ls, st.counter + 1)
  {
    var after := AfterBlock(st, ls);
    AfterBlockFields(st, ls);
    ChainTurns(x, after.turns, st.turns, BlockTurn(ls, st.counter + 1),
               Blocks(ls[NextLabel(ls, 1)..], after.counter + 1), Blocks(ls, st.counter + 1));
  }

  lemma AfterBlockFields(st: ParserState, ls: seq<Line>)
    requires ls != [] && ls[0].Label?
    ensures AfterBlock(st, ls).counter == st.counter + 1
    ensures AfterBlock(st, ls).turns == st.turns + [BlockTurn(ls, st.counter + 1)]
  {
  }

  /** Turns emitted before a block, its turn, then the turns after it. */
  lemma ChainTurns(x: seq<Turn>, mid: seq<Turn>, before: seq<Turn>, t: Turn, rest: seq<Turn>, all: seq<Turn>)
    requires x == mid + rest && mid == before + [t] && all == [t] + rest
    ensures x == before + all
  {
    assert before + [t] + rest == before + ([t] + rest);
  }

  /** The state machine and the reference reading agree on every file. */
  lemma ParseIsBlocks(content: string)
    ensures Parse(content) == Blocks(ClassifyAll(Split(content, '\n')), 1)
  {
    RunFromInit(ClassifyAll(Split(content, '\n')));
  }

  lemma RunFromInit(ls: seq<Line>)
    ensures Flush(Run(Init, ls)).turns == Blocks(ls, 1)
  {
    RunIsBlocks(Init, ls);
    assert Init.turns == [] && Init.counter + 1 == 1;
    assert Init.turns + Blocks(ls, 1) == Blocks(ls, 1);
  }

  // ---------------------------------------------------------------------
  // Properties of the turns.

  /** The literal `Speaker <Id>` prefix of a label line. */
  predicate IsSpeakerName(s: string)
  {
    |s| > |SpeakerWord| && s[..|SpeakerWord|] == SpeakerWord
    && forall k :: |SpeakerWord| <= k < |s| ==> IsAlnum(s[k])
  }

  /** A match's speaker is a `Speaker <Id>` name followed by the colon, and
      its rest is everything after that colon. */
  lemma MatchParts(t: string)
    requires MatchSpeakerLabel(t).Some?
    ensures var m := MatchSpeakerLabel(t).value;
      IsSpeakerName(m.speaker) && |m.speaker| < |t| && t[..|m.speaker|] == m.speaker
      && t[|m.speaker|] == ':' && m.rest == t[|m.speaker| + 1..]
  {
    var m := MatchSpeakerLabel(t).value;
    assert t == m.speaker + ":" + m.rest;
    assert m.speaker == t[..|m.speaker|];
    assert m.speaker[..|SpeakerWord|] == SpeakerWord;
  }

  /** A label line's speaker is the `Speaker <Id>` text before the first
      colon, and its remainder is what follows that colon, stripped. */
  lemma ClassifyLabel(line: string)
    requires Classify(line).Label?
    ensures IsSpeakerName(Classify(line).speaker)
    ensures var sp := Classify(line).speaker;
      |sp| < |Strip(line)| && Strip(line)[..|sp|] == sp && Strip(line)[|sp|] == ':'
      && Classify(line).rest == Strip(Strip(line)[|sp| + 1..])
  {
    var m := MatchSpeakerLabel(Strip(line)).value;
    MatchParts(Strip(line));
    StripKeepsStripped(m.speaker);
  }

  predicate SpeakersNamed(ls: seq<Line>)
  {
    forall i :: 0 <= i < |ls| ==> ls[i].Label? ==> IsSpeakerName(ls[i].speaker)
  }

  lemma ClassifyAllSpeakersNamed(lines: seq<string>)
    ensures SpeakersNamed(ClassifyAll(lines))
  {
    forall i | 0 <= i < |lines| && Classify(lines[i]).Label?
      ensures IsSpeakerName(Classify(lines[i]).speaker)
    {
      ClassifyLabel(lines[i]);
    }
  }

  lemma {:induction false} NumLabelsSkip(ls: seq<Line>, i: nat, j: nat)
    requires i <= j <= |ls|
    requires forall k :: i <= k < j ==> !ls[k].Label?
    ensures NumLabels(ls[i..]) == NumLabels(ls[j..])
    decreases j - i
  {
    if i < j {
      assert ls[i..][0] == ls[i] && ls[i..][1..] == ls[i + 1..];
      NumLabelsSkip(ls, i + 1, j);
    }
  }

  /** A label line contributes one turn and one label. */
  lemma BlocksAtLabel(ls: seq<Line>, id: nat)
    requires ls != [] && ls[0].Label?
    ensures var j := NextLabel(ls, 1);
      Blocks(ls, id) == [BlockTurn(ls, id)] + Blocks(ls[j..], id + 1)
      && NumLabels(ls) == 1 + NumLabels(ls[j..])
  {
    var j := NextLabel(ls, 1);
    NumLabelsSkip(ls, 1, j);
    assert ls[0..][1..] == ls[1..];
    assert ls[0..] == ls;
  }

  lemma BlockTextStripped(ls: seq<Line>, j: nat)
    requires 1 <= j <= |ls| && ls[0].Label?
    ensures IsStripped(BlockText(ls, j))
  {
    StripIdempotent(Join([ls[0].rest] + ContinuationTexts(ls[1..j]), ' '));
  }

  lemma SpeakersNamedSuffix(ls: seq<Line>, j: nat)
    requires SpeakersNamed(ls) && j <= |ls|
    ensures SpeakersNamed(ls[j..])
  {
    forall i | 0 <= i < |ls[j..]| ensures ls[j..][i] == ls[i + j] { }
  }

  /** Turns numbered consecutively from `id`. */
  predicate NumberedFrom(ts: seq<Turn>, id: nat)
  {
    forall k :: 0 <= k < |ts| ==> ts[k].id == id + k
  }

  lemma NumberedCons(t: Turn, ts: seq<Turn>, id: nat)
    requires t.id == id && NumberedFrom(ts, id + 1)
    ensures NumberedFrom([t] + ts, id)
  {
    forall k | 0 <= k < |[t] + ts| ensures ([t] + ts)[k].id == id + k {
      if k > 0 {
        assert ([t] + ts)[k] == ts[k - 1];
      }
    }
  }

  /** One turn per label line, numbered from `id` on. */
  lemma {:induction false} BlocksNumbered(ls: seq<Line>, id: nat)
    ensures |Blocks(ls, id)| == NumLabels(ls)
    ensures NumberedFrom(Blocks(ls, id), id)
    decreases |ls|
  {
    if ls != [] {
      if !ls[0].Label? {
        BlocksNumbered(ls[1..], id);
      } else {
        var j := NextLabel(ls, 1);
        BlocksNumbered(ls[j..], id + 1);
        BlocksAtLabel(ls, id);
        NumberedCons(Turn(id, ls[0].speaker, BlockText(ls, j)), Blocks(ls[j..], id + 1), id);
      }
    }
  }

  /** Turns with `Speaker <Id>` speakers and stripped texts. */
  predicate WellShaped(ts: seq<Turn>)
  {
    forall k :: 0 <= k < |ts| ==> IsSpeakerName(ts[k].speaker) && IsStripped(ts[k].text)
  }

  lemma WellShapedCons(t: Turn, ts: seq<Turn>)
    requires IsSpeakerName(t.speaker) && IsStripped(t.text) && WellShaped(ts)
    ensures WellShaped([t] + ts)
  {
    forall k | 0 <= k < |[t] + ts|
      ensures IsSpeakerName(([t] + ts)[k].speaker) && IsStripped(([t] + ts)[k].text)
    {
      if k > 0 {
        assert ([t] + ts)[k] == ts[k - 1];
      }
    }
  }

  /** Every turn has a `Speaker <Id>` speaker and a stripped text. */
  lemma {:induction false} BlocksContents(ls: seq<Line>, id: nat)
    requires SpeakersNamed(ls)
    ensures WellShaped(Blocks(ls, id))
    decreases |ls|
  {
    if ls != [] {
      if !ls[0].Label? {
        SpeakersNamedSuffix(ls, 1);
        BlocksContents(ls[1..], id);
      } else {
        var j := NextLabel(ls, 1);
        SpeakersNamedSuffix(ls, j);
        BlocksContents(ls[j..], id + 1);
        BlocksAtLabel(ls, id);
        BlockTextStripped(ls, j);
        WellShapedCons(Turn(id, ls[0].speaker, BlockText(ls, j)), Blocks(ls[j..], id + 1));
      }
    }
  }

  /** What `parse_transcript` returns: exactly one turn per label line (even
      for `Speaker A:` with nothing after the colon), ids running 1, 2, ...,
      n in order, every speaker the literal `Speaker <Id>` prefix and every
      text stripped; no label line at all means no turn. */
  lemma ParseShape(content: string)
    ensures var ls := ClassifyAll(Split(content, '\n'));
      |Parse(content)| == NumLabels(ls)
      && (Parse(content) == [] <==> NumLabels(ls) == 0)
    ensures forall k :: 0 <= k < |Parse(content)| ==> Parse(content)[k].id == k + 1
    ensures forall k :: 0 <= k < |Parse(content)| ==> IsSpeakerName(Parse(content)[k].speaker)
    ensures forall k :: 0 <= k < |Parse(content)| ==> IsStripped(Parse(content)[k].text)
  {
    ParseIsBlocks(content);
    ClassifyAllSpeakersNamed(Split(content, '\n'));
    BlocksNumbered(ClassifyAll(Split(content, '\n')), 1);
    BlocksContents(ClassifyAll(Split(content, '\n')), 1);
  }

  /** Empty content gives no turns. */
  lemma ParseEmpty()
    ensures Parse("") == []
  {
    assert Split("", '\n') == [""];
    assert ClassifyAll([""]) == [Blank];
  }

  lemma ClassifyAllAppend(a: seq<string>, b: seq<string>)
    ensures ClassifyAll(a + b) == ClassifyAll(a) + ClassifyAll(b)
  {
  }

  /** A whitespace-only line, wherever it stands, changes nothing. */
  lemma BlankLineIrrelevant(a: seq<string>, b: string, c: seq<string>)
    requires Strip(b) == ""
    ensures ParseLines(a + [b] + c) == ParseLines(a + c)
  {
    ClassifyAllAppend(a + [b], c);
    ClassifyAllAppend(a, [b]);
    ClassifyAllAppend(a, c);
    var la, lc := ClassifyAll(a), ClassifyAll(c);
    assert ClassifyAll([b]) == [Blank];
    RunAppend(Init, la + [Blank], lc);
    RunSnoc(Init, la, Blank);
    RunAppend(Init, la, lc);
  }

  /** Lines before the first label line are dropped. */
  lemma PreambleDropped(pre: seq<string>, rest: seq<string>)
    requires forall k :: 0 <= k < |pre| ==> !Classify(pre[k]).Label?
    ensures ParseLines(pre + rest) == ParseLines(rest)
  {
    ClassifyAllAppend(pre, rest);
    RunAppend(Init, ClassifyAll(pre), ClassifyAll(rest));
    RunOverContinuations(Init, ClassifyAll(pre));
  }

  /** Read on the file content, joined from lines without newlines. */
  lemma ParseOfLines(lines: seq<string>)
    requires |lines| >= 1
    requires forall k :: 0 <= k < |lines| ==> '\n' !in lines[k]
    ensures Parse(Join(lines, '\n')) == ParseLines(lines)
  {
    SplitJoin(lines, '\n');
  }

  /** A label line with nothing after the colon still opens a turn, with
      empty text. */
  lemma SingleLabelLine(line: string, sp: string)
    requires Classify(line) == Label(sp, "")
    ensures ParseLines([line]) == [Turn(1, sp, "")]
  {
    assert ClassifyAll([line]) == [Label(sp, "")];
    assert Run(Init, [Label(sp, "")]) == ParserState(Some(sp), [""], 0, []);
    assert Join([""], ' ') == "";
    assert Strip("") == "";
  }

  lemma ClassifyBareLabel()
    ensures Classify("Speaker A:") == Label("Speaker A", "")
  {
    var s := "Speaker A:";
    StripKeepsStripped(s);
    StripKeepsStripped("Speaker A");
    assert s[..8] == SpeakerWord;
    assert AlnumEnd(s, 9) == 9;
    assert AlnumEnd(s, 8) == 9;
    assert s[..9] == "Speaker A";
  }

  /** Content of one line that is a bare label gives one empty turn. */
  lemma BareLabelContent(content: string, sp: string)
    requires '\n' !in content && Classify(content) == Label(sp, "")
    ensures Parse(content) == [Turn(1, sp, "")]
  {
    SplitWithoutSeparator(content, '\n');
    SingleLabelLine(content, sp);
  }

  lemma BareLabelGivesEmptyTurn()
    ensures Parse("Speaker A:") == [Turn(1, "Speaker A", "")]
  {
    ClassifyBareLabel();
    BareLabelContent("Speaker A:", "Speaker A");
  }

  /** A space before the colon is not a label: the line continues the
      current turn. */
  lemma NearMissIsContinuation()
    ensures Classify("Speaker A : hi") == Continuation("Speaker A : hi")
  {
    var s := "Speaker A : hi";
    StripKeepsStripped(s);
    assert s[..8] == SpeakerWord;
    assert AlnumEnd(s, 9) == 9;
    assert AlnumEnd(s, 8) == 9;
  }
}
