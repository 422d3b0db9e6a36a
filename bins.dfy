/** The word-count histogram of the summary tab in ui_components.py: the
    bin edges and labels chosen from the largest word count, their
    order-preserving de-duplication, and the right-closed bucketing with
    the lowest edge included that `pd.cut` performs on them. */
module Bins {
  import opened Text
  import opened Collections
  import opened Analysis

  /** `f'{lo}-{hi}'` for the open-ended last label. */
  function UpTo(lo: string, maxWords: nat): string
  {
    lo + "-" + NatToString(maxWords)
  }

  /** The edges the if/elif chain picks, as written. */
  function EdgesAsWritten(maxWords: nat): seq<int>
  {
    var top := maxWords + 1;
    if maxWords <= 10 then [0, top]
    else if maxWords <= 20 then [0, 10, top]
    else if maxWords <= 30 then [0, 10, 20, top]
    else if maxWords <= 50 then [0, 10, 20, 30, 50, top]
    else [0, 10, 20, 30, 50, 100, top]
  }

  /** The labels the if/elif chain picks, as written. */
  function LabelsAsWritten(maxWords: nat): seq<string>
  {
    if maxWords <= 10 then [UpTo("1", maxWords)]
    else if maxWords <= 20 then ["1-10", UpTo("11", maxWords)]
    else if maxWords <= 30 then ["1-10", "11-20", UpTo("21", maxWords)]
    else if maxWords <= 50 then ["1-10", "11-20", "21-30", "31-50", UpTo("51", maxWords)]
    else ["1-10", "11-20", "21-30", "31-50", "51-100", UpTo("101", maxWords)]
  }

  /** The fixed edges below `max_words + 1`, as written. */
  function FixedEdges(maxWords: nat): seq<int>
  {
    if maxWords <= 10 then [0]
    else if maxWords <= 20 then [0, 10]
    else if maxWords <= 30 then [0, 10, 20]
    else if maxWords <= 50 then [0, 10, 20, 30, 50]
    else [0, 10, 20, 30, 50, 100]
  }

  /** Every branch starts at 0, ends just above the largest count and has one
      edge more than labels, with one to six labels. */
  lemma BinsShape(maxWords: nat)
    ensures var e := EdgesAsWritten(maxWords);
      |e| == |LabelsAsWritten(maxWords)| + 1 && 1 <= |LabelsAsWritten(maxWords)| <= 6
      && e[0] == 0 && e[|e| - 1] == maxWords + 1
    ensures EdgesAsWritten(maxWords) == FixedEdges(maxWords) + [maxWords + 1]
  {
  }

  predicate StrictlyAscending(xs: seq<int>)
  {
    forall i, j :: 0 <= i < j < |xs| ==> xs[i] < xs[j]
  }

  /** What `pd.cut(..., bins, labels)` accepts with its default ordered
      labels: strictly increasing edges, exactly one label per interval and
      no label twice. */
  predicate CutAccepts(edges: seq<int>, labels: seq<string>)
  {
    StrictlyAscending(edges) && |edges| == |labels| + 1 && NoDups(labels)
  }

  /** The open-ended label starts with its lower bound and a dash. */
  lemma UpToStart(lo: string, maxWords: nat)
    ensures |UpTo(lo, maxWords)| > |lo| + 1
    ensures forall i :: 0 <= i < |lo| ==> UpTo(lo, maxWords)[i] == lo[i]
    ensures UpTo(lo, maxWords)[|lo|] == '-'
  {
    assert UpTo(lo, maxWords) == lo + ("-" + NatToString(maxWords));
  }

  /** Labels that differ in their first or second character. */
  predicate DistinctStarts(ls: seq<string>)
  {
    (forall i :: 0 <= i < |ls| ==> |ls[i]| >= 2)
    && forall i, j :: 0 <= i < j < |ls| ==> ls[i][0] != ls[j][0] || ls[i][1] != ls[j][1]
  }

  lemma DistinctStartsNoDups(ls: seq<string>)
    requires DistinctStarts(ls)
    ensures NoDups(ls)
  {
    forall i, j | 0 <= i < j < |ls| ensures ls[i] != ls[j] {
      assert ls[i][0] != ls[j][0] || ls[i][1] != ls[j][1];
    }
  }

  /** The labels as written never repeat: they differ in their first or
      second character. */
  lemma LabelsAsWrittenDistinct(maxWords: nat)
    ensures NoDups(LabelsAsWritten(maxWords))
  {
    if maxWords <= 10 {
    } else if maxWords <= 20 {
      UpToStart("11", maxWords);
      DistinctStartsNoDups(LabelsAsWritten(maxWords));
    } else if maxWords <= 30 {
      UpToStart("21", maxWords);
      DistinctStartsNoDups(LabelsAsWritten(maxWords));
    } else if maxWords <= 50 {
      UpToStart("51", maxWords);
      DistinctStartsNoDups(LabelsAsWritten(maxWords));
    } else {
      UpToStart("101", maxWords);
      DistinctStartsNoDups(LabelsAsWritten(maxWords));
    }
  }

  /** The corrected labels never repeat either. */
  lemma LabelsCorrectedDistinct(maxWords: nat)
    ensures NoDups(LabelsCorrected(maxWords))
  {
    if maxWords <= 10 {
    } else if maxWords <= 20 {
      UpToStart("11", maxWords);
      DistinctStartsNoDups(LabelsCorrected(maxWords));
    } else if maxWords <= 30 {
      UpToStart("21", maxWords);
      DistinctStartsNoDups(LabelsCorrected(maxWords));
    } else if maxWords <= 50 {
      UpToStart("31", maxWords);
      DistinctStartsNoDups(LabelsCorrected(maxWords));
    } else if maxWords <= 100 {
      UpToStart("51", maxWords);
      DistinctStartsNoDups(LabelsCorrected(maxWords));
    } else {
      UpToStart("101", maxWords);
      DistinctStartsNoDups(LabelsCorrected(maxWords));
    }
  }

  /** Each edge above the one before it. */
  predicate StepsUp(xs: seq<int>)
  {
    forall i :: 0 < i < |xs| ==> xs[i - 1] < xs[i]
  }

  lemma {:induction false} StepsUpAscending(xs: seq<int>)
    requires StepsUp(xs)
    ensures StrictlyAscending(xs)
  {
    if |xs| > 1 {
      var p := xs[..|xs| - 1];
      assert StepsUp(p) by {
        forall i | 0 < i < |p| ensures p[i - 1] < p[i] {
          assert p[i] == xs[i] && p[i - 1] == xs[i - 1];
        }
      }
      StepsUpAscending(p);
      forall i, j | 0 <= i < j < |xs| ensures xs[i] < xs[j] {
        if j < |xs| - 1 {
          assert xs[i] == p[i] && xs[j] == p[j];
        } else if i < |xs| - 2 {
          assert xs[i] == p[i] && xs[|xs| - 2] == p[|xs| - 2];
        }
      }
    }
  }

  lemma AscendingNoDups(p: seq<int>)
    requires StrictlyAscending(p)
    ensures NoDups(p)
  {
  }

  /** Edges that step up are strictly ascending and survive de-duplication unchanged. */
  lemma StepsUpUnique(e: seq<int>)
    requires StepsUp(e)
    ensures StrictlyAscending(e) && NoDups(e) && Dedup(e) == e
  {
    StepsUpAscending(e);
    AscendingNoDups(e);
    DedupOfNoDups(e);
  }

  lemma DedupSnoc(p: seq<int>, x: int)
    requires NoDups(p)
    ensures Dedup(p + [x]) == if x in p then p else p + [x]
  {
    DedupOfNoDups(p);
    assert (p + [x])[..|p|] == p;
  }

  /** An edge after stepping-up edges is dropped exactly when it repeats one. */
  lemma DedupAfterSteps(p: seq<int>, x: int)
    requires StepsUp(p)
    ensures Dedup(p + [x]) == if x in p then p else p + [x]
  {
    StepsUpUnique(p);
    DedupSnoc(p, x);
  }

  lemma UniqueEdgesLow(maxWords: nat)
    requires maxWords <= 30
    ensures Dedup(EdgesAsWritten(maxWords)) == EdgesAsWritten(maxWords)
  {
    LabelsCorrectedDistinct(maxWords);
    var top := maxWords + 1;
    if maxWords <= 10 {
      StepsUpUnique([0, top]);
    } else if maxWords <= 20 {
      StepsUpUnique([0, 10, top]);
    } else {
      StepsUpUnique([0, 10, 20, top]);
    }
  }

  lemma UniqueEdgesMiddle(maxWords: nat)
    requires 30 < maxWords <= 50
    ensures Dedup(EdgesAsWritten(maxWords)) ==
      if maxWords == 49 then FixedEdges(maxWords) else EdgesAsWritten(maxWords)
  {
    var p := [0, 10, 20, 30, 50];
    assert EdgesAsWritten(maxWords) == p + [maxWords + 1];
    DedupAfterSteps(p, maxWords + 1);
    assert maxWords + 1 in p <==> maxWords == 49;
  }

  lemma UniqueEdgesHigh(maxWords: nat)
    requires 50 < maxWords
    ensures Dedup(EdgesAsWritten(maxWords)) ==
      if maxWords == 99 then FixedEdges(maxWords) else EdgesAsWritten(maxWords)
  {
    var p := [0, 10, 20, 30, 50, 100];
    assert EdgesAsWritten(maxWords) == p + [maxWords + 1];
    DedupAfterSteps(p, maxWords + 1);
    assert maxWords + 1 in p <==> maxWords == 99;
  }

  /** The edges after `list(dict.fromkeys(bins))`: de-duplication drops the
      last edge exactly at 49 and 99, where it repeats the fixed 50 or 100
      edge, and changes nothing otherwise. */
  lemma UniqueEdgesAsWritten(maxWords: nat)
    ensures Dedup(EdgesAsWritten(maxWords)) ==
      if maxWords == 49 || maxWords == 99 then FixedEdges(maxWords) else EdgesAsWritten(maxWords)
  {
    if maxWords <= 30 {
      UniqueEdgesLow(maxWords);
    } else if maxWords <= 50 {
      UniqueEdgesMiddle(maxWords);
    } else {
      UniqueEdgesHigh(maxWords);
    }
  }

  /** De-duplication keeps 0 first and `max_words + 1` last. */
  lemma UniqueEdgesEnds(maxWords: nat)
    ensures var u := Dedup(EdgesAsWritten(maxWords));
      |u| >= 2 && u[0] == 0 && u[|u| - 1] == maxWords + 1
  {
    UniqueEdgesAsWritten(maxWords);
    BinsShape(maxWords);
    if maxWords == 49 || maxWords == 99 {
      var p := FixedEdges(maxWords);
      assert p[|p| - 1] == maxWords + 1;
    }
  }

  /** Between 31 and 48, and between 51 and 98, the last edge falls below the
      fixed 50 or 100 edge. */
  lemma BinsDescendFor(maxWords: nat)
    requires 31 <= maxWords <= 48 || 51 <= maxWords <= 98
    ensures !StrictlyAscending(Dedup(EdgesAsWritten(maxWords)))
  {
    UniqueEdgesAsWritten(maxWords);
    var u := EdgesAsWritten(maxWords);
    assert u[|u| - 2] > u[|u| - 1];
  }

  /** At 49 and 99 the last edge repeats the fixed one and is dropped,
      leaving as many edges as labels. */
  lemma BinsOneEdgeShortFor(maxWords: nat)
    requires maxWords == 49 || maxWords == 99
    ensures |Dedup(EdgesAsWritten(maxWords))| == |LabelsAsWritten(maxWords)|
  {
    UniqueEdgesAsWritten(maxWords);
  }

  /** At most 30, exactly 50 or at least 100, the edges as written step up
      and match the labels. */
  lemma BinsAcceptedFor(maxWords: nat)
    requires maxWords <= 30 || maxWords == 50 || maxWords >= 100
    ensures CutAccepts(Dedup(EdgesAsWritten(maxWords)), LabelsAsWritten(maxWords))
  {
    UniqueEdgesAsWritten(maxWords);
    BinsShape(maxWords);
    LabelsAsWrittenDistinct(maxWords);
    var top := maxWords + 1;
    if maxWords <= 10 {
      StepsUpAscending([0, top]);
    } else if maxWords <= 20 {
      StepsUpAscending([0, 10, top]);
    } else if maxWords <= 30 {
      StepsUpAscending([0, 10, 20, top]);
    } else if maxWords == 50 {
      StepsUpAscending([0, 10, 20, 30, 50, top]);
    } else {
      StepsUpAscending([0, 10, 20, 30, 50, 100, top]);
    }
  }

  /** The edges as written are usable exactly when the largest count is at
      most 30, exactly 50, or at least 100. */
  lemma BinsAcceptedExactly(maxWords: nat)
    ensures CutAccepts(Dedup(EdgesAsWritten(maxWords)), LabelsAsWritten(maxWords))
            <==> maxWords <= 30 || maxWords == 50 || maxWords >= 100
  {
    if 31 <= maxWords <= 48 || 51 <= maxWords <= 98 {
      BinsDescendFor(maxWords);
    } else if maxWords == 49 || maxWords == 99 {
      BinsOneEdgeShortFor(maxWords);
    } else {
      BinsAcceptedFor(maxWords);
    }
  }

  lemma BinsGapWitness()
    ensures Dedup(EdgesAsWritten(40)) == [0, 10, 20, 30, 50, 41]
    ensures Dedup(EdgesAsWritten(49)) == [0, 10, 20, 30, 50] && |LabelsAsWritten(49)| == 5
  {
    UniqueEdgesAsWritten(40);
    UniqueEdgesAsWritten(49);
  }

  /** The edges the branches evidently intend: each branch ends its fixed
      edges below the largest count, as the first three do. */
  function EdgesCorrected(maxWords: nat): seq<int>
  {
    var top := maxWords + 1;
    if maxWords <= 10 then [0, top]
    else if maxWords <= 20 then [0, 10, top]
    else if maxWords <= 30 then [0, 10, 20, top]
    else if maxWords <= 50 then [0, 10, 20, 30, top]
    else if maxWords <= 100 then [0, 10, 20, 30, 50, top]
    else [0, 10, 20, 30, 50, 100, top]
  }

  function LabelsCorrected(maxWords: nat): seq<string>
  {
    if maxWords <= 10 then [UpTo("1", maxWords)]
    else if maxWords <= 20 then ["1-10", UpTo("11", maxWords)]
    else if maxWords <= 30 then ["1-10", "11-20", UpTo("21", maxWords)]
    else if maxWords <= 50 then ["1-10", "11-20", "21-30", UpTo("31", maxWords)]
    else if maxWords <= 100 then ["1-10", "11-20", "21-30", "31-50", UpTo("51", maxWords)]
    else ["1-10", "11-20", "21-30", "31-50", "51-100", UpTo("101", maxWords)]
  }

  /** The corrected edges never repeat, always ascend, have one label per
      interval and span 0 to just above the largest count. */
  lemma BinsCorrectedAccepted(maxWords: nat)
    ensures var e := EdgesCorrected(maxWords);
      Dedup(e) == e && CutAccepts(e, LabelsCorrected(maxWords))
      && e[0] == 0 && e[|e| - 1] == maxWords + 1
  {
    LabelsCorrectedDistinct(maxWords);
    var top := maxWords + 1;
    if maxWords <= 10 {
      StepsUpUnique([0, top]);
    } else if maxWords <= 20 {
      StepsUpUnique([0, 10, top]);
    } else if maxWords <= 30 {
      StepsUpUnique([0, 10, 20, top]);
    } else if maxWords <= 50 {
      StepsUpUnique([0, 10, 20, 30, top]);
    } else if maxWords <= 100 {
      StepsUpUnique([0, 10, 20, 30, 50, top]);
    } else {
      StepsUpUnique([0, 10, 20, 30, 50, 100, top]);
    }
  }

  /** The corrected edges and labels agree with those as written wherever
      those are right for every count. */
  lemma BinsCorrectedAgrees(maxWords: nat)
    requires maxWords <= 30 || maxWords > 100
    ensures EdgesCorrected(maxWords) == EdgesAsWritten(maxWords)
    ensures LabelsCorrected(maxWords) == LabelsAsWritten(maxWords)
  {
  }

  // ---------------------------------------------------------------------
  // Bucketing.

  /** `v` falls in interval `k`: right-closed, the first one also closed on
      the left (`right=True, include_lowest=True`). */
  predicate InBucket(edges: seq<int>, v: int, k: nat)
  {
    k + 1 < |edges| && (if k == 0 then edges[0] <= v else edges[k] < v) && v <= edges[k + 1]
  }

  function BucketFrom(edges: seq<int>, v: int, k: nat): (j: nat)
    requires k + 1 < |edges| && v <= edges[|edges| - 1]
    requires StrictlyAscending(edges)
    requires k == 0 ==> edges[0] <= v
    requires k > 0 ==> edges[k] < v
    ensures InBucket(edges, v, j) && j >= k
    decreases |edges| - k
  {
    if v <= edges[k + 1] then k else BucketFrom(edges, v, k + 1)
  }

  /** The interval `pd.cut` assigns to `v`. */
  function Bucket(edges: seq<int>, v: int): (k: nat)
    requires |edges| >= 2 && StrictlyAscending(edges)
    requires edges[0] <= v <= edges[|edges| - 1]
    ensures InBucket(edges, v, k)
  {
    BucketFrom(edges, v, 0)
  }

  /** With ascending edges a value lies in at most one interval. */
  lemma BucketUnique(edges: seq<int>, v: int, j: nat, k: nat)
    requires StrictlyAscending(edges)
    requires InBucket(edges, v, j) && InBucket(edges, v, k)
    ensures j == k
  {
  }

  /** With usable edges, a value between the outer edges lies in exactly one
      interval, and that interval has a label. */
  lemma OneLabelledBucket(edges: seq<int>, labels: seq<string>, v: int)
    requires |edges| >= 2 && CutAccepts(edges, labels)
    requires edges[0] <= v <= edges[|edges| - 1]
    ensures Bucket(edges, v) < |labels|
    ensures forall k :: InBucket(edges, v, k) ==> k == Bucket(edges, v)
  {
    forall k | InBucket(edges, v, k) ensures k == Bucket(edges, v) {
      BucketUnique(edges, v, k, Bucket(edges, v));
    }
  }

  /** The largest word count of the records. */
  function MaxWords(rs: seq<Record>): (m: nat)
    requires rs != []
    ensures forall k :: 0 <= k < |rs| ==> rs[k].totalWords <= m
    ensures exists k :: 0 <= k < |rs| && rs[k].totalWords == m
  {
    if |rs| == 1 then rs[0].totalWords
    else
      var m := MaxWords(rs[1..]);
      assert forall k :: 1 <= k < |rs| ==> rs[k] == rs[1..][k - 1];
      if rs[0].totalWords >= m then rs[0].totalWords else m
  }

  /** Under the edges as written, whenever they are usable, every record's
      word count lies in exactly one labelled interval. */
  lemma EveryTurnInOneBucket(rs: seq<Record>, i: nat)
    requires i < |rs|
    requires CutAccepts(Dedup(EdgesAsWritten(MaxWords(rs))), LabelsAsWritten(MaxWords(rs)))
    ensures var u := Dedup(EdgesAsWritten(MaxWords(rs)));
      |u| >= 2 && u[0] <= rs[i].totalWords <= u[|u| - 1]
      && Bucket(u, rs[i].totalWords) < |LabelsAsWritten(MaxWords(rs))|
      && forall k :: InBucket(u, rs[i].totalWords, k) ==> k == Bucket(u, rs[i].totalWords)
  {
    UniqueEdgesEnds(MaxWords(rs));
    OneLabelledBucket(Dedup(EdgesAsWritten(MaxWords(rs))), LabelsAsWritten(MaxWords(rs)), rs[i].totalWords);
  }

  /** Under the corrected edges every record's word count lies in exactly one
      labelled interval, whatever the largest count. */
  lemma EveryTurnInOneCorrectedBucket(rs: seq<Record>, i: nat)
    requires i < |rs|
    ensures var e := EdgesCorrected(MaxWords(rs));
      |e| >= 2 && e[0] <= rs[i].totalWords <= e[|e| - 1]
      && StrictlyAscending(e)
      && Bucket(e, rs[i].totalWords) < |LabelsCorrected(MaxWords(rs))|
      && forall k :: InBucket(e, rs[i].totalWords, k) ==> k == Bucket(e, rs[i].totalWords)
  {
    BinsCorrectedAccepted(MaxWords(rs));
    OneLabelledBucket(EdgesCorrected(MaxWords(rs)), LabelsCorrected(MaxWords(rs)), rs[i].totalWords);
  }
}
