/** Sequence helpers behind the summary tables: the order-preserving
    de-duplication `list(dict.fromkeys(xs))`, sums of a numeric column, and
    sums restricted to the rows of one group. */
module Collections {

  /** `a / b` when `b` is positive and 0 otherwise, the guard every ratio
      of the pipeline uses. */
  function Ratio(a: nat, b: nat): (r: real)
    ensures b > 0 ==> r * b as real == a as real
    ensures b == 0 ==> r == 0.0
    ensures r >= 0.0
  {
    if b > 0 then a as real / b as real else 0.0
  }

  predicate NoDups<T(==)>(xs: seq<T>)
  {
    forall i, j :: 0 <= i < j < |xs| ==> xs[i] != xs[j]
  }

  /** `list(dict.fromkeys(xs))`: the elements in order, each kept at its
      first occurrence. */
  function Dedup<T(==)>(xs: seq<T>): (d: seq<T>)
    ensures |d| <= |xs|
  {
    if xs == [] then []
    else
      var d := Dedup(xs[..|xs| - 1]);
      if xs[|xs| - 1] in d then d else d + [xs[|xs| - 1]]
  }

  /** Reference: the elements that do not occur earlier. */
  function FirstOccurrences<T(==)>(xs: seq<T>): seq<T>
  {
    if xs == [] then []
    else FirstOccurrences(xs[..|xs| - 1]) + (if xs[|xs| - 1] in xs[..|xs| - 1] then [] else [xs[|xs| - 1]])
  }

  /** De-duplication removes only repeats: it keeps every element, adds none,
      leaves no repeat and keeps each element where it first occurs. */
  lemma {:induction false} DedupMeaning<T>(xs: seq<T>)
    ensures forall x :: x in Dedup(xs) <==> x in xs
    ensures NoDups(Dedup(xs))
    ensures Dedup(xs) == FirstOccurrences(xs)
  {
    if xs != [] {
      var p := xs[..|xs| - 1];
      DedupMeaning(p);
      forall x ensures x in xs <==> x in p || x == xs[|xs| - 1] {
        assert xs == p + [xs[|xs| - 1]];
      }
    }
  }

  lemma DedupKeeps<T>(xs: seq<T>, x: T)
    requires x in Dedup(xs)
    ensures x in xs
  {
    DedupMeaning(xs);
  }

  /** A sequence without repeats is its own de-duplication. */
  lemma {:induction false} DedupOfNoDups<T>(xs: seq<T>)
    requires NoDups(xs)
    ensures Dedup(xs) == xs
  {
    if xs != [] {
      var p := xs[..|xs| - 1];
      assert NoDups(p);
      DedupOfNoDups(p);
      assert xs[|xs| - 1] !in p;
      assert p + [xs[|xs| - 1]] == xs;
    }
  }

  /** The sum of a column. */
  function SumOf<T>(xs: seq<T>, f: T -> nat): nat
  {
    if xs == [] then 0 else f(xs[0]) + SumOf(xs[1..], f)
  }

  /** The sum of a column over the rows whose key is `k`. */
  function SumWhere<T, K(==)>(xs: seq<T>, key: T -> K, k: K, f: T -> nat): nat
  {
    if xs == [] then 0 else (if key(xs[0]) == k then f(xs[0]) else 0) + SumWhere(xs[1..], key, k, f)
  }

  /** The per-key sums for the keys `ks`. */
  function SumsFor<T, K(==)>(xs: seq<T>, key: T -> K, ks: seq<K>, f: T -> nat): nat
  {
    if ks == [] then 0 else SumWhere(xs, key, ks[0], f) + SumsFor(xs, key, ks[1..], f)
  }

  function Indicator<K(==)>(ks: seq<K>, x: K, v: nat): nat
  {
    if ks == [] then 0 else (if ks[0] == x then v else 0) + Indicator(ks[1..], x, v)
  }

  lemma {:induction false} IndicatorOnce<K>(ks: seq<K>, x: K, v: nat)
    requires NoDups(ks) && x in ks
    ensures Indicator(ks, x, v) == v
  {
    if ks[0] == x {
      IndicatorAbsent(ks[1..], x, v);
    } else {
      IndicatorOnce(ks[1..], x, v);
    }
  }

  lemma {:induction false} IndicatorAbsent<K>(ks: seq<K>, x: K, v: nat)
    requires x !in ks
    ensures Indicator(ks, x, v) == 0
  {
    if ks != [] {
      IndicatorAbsent(ks[1..], x, v);
    }
  }

  lemma {:induction false} SumsForStep<T, K>(xs: seq<T>, key: T -> K, ks: seq<K>, f: T -> nat)
    requires xs != []
    ensures SumsFor(xs, key, ks, f) == Indicator(ks, key(xs[0]), f(xs[0])) + SumsFor(xs[1..], key, ks, f)
  {
    if ks != [] {
      SumsForStep(xs, key, ks[1..], f);
    }
  }

  /** Grouping partitions the rows: summed over a list of distinct keys that
      covers every row's key, the per-key sums give the column's total. */
  lemma {:induction false} GroupSumsPartition<T, K>(xs: seq<T>, key: T -> K, ks: seq<K>, f: T -> nat)
    requires NoDups(ks)
    requires forall i :: 0 <= i < |xs| ==> key(xs[i]) in ks
    ensures SumsFor(xs, key, ks, f) == SumOf(xs, f)
  {
    if xs == [] {
      SumsForEmpty(xs, key, ks, f);
    } else {
      SumsForStep(xs, key, ks, f);
      IndicatorOnce(ks, key(xs[0]), f(xs[0]));
      assert forall i :: 0 <= i < |xs[1..]| ==> xs[1..][i] == xs[i + 1];
      GroupSumsPartition(xs[1..], key, ks, f);
    }
  }

  lemma {:induction false} SumsForEmpty<T, K>(xs: seq<T>, key: T -> K, ks: seq<K>, f: T -> nat)
    requires xs == []
    ensures SumsFor(xs, key, ks, f) == 0
  {
    if ks != [] {
      SumsForEmpty(xs, key, ks[1..], f);
    }
  }

  /** The key column of the rows. */
  function Column<T, K>(xs: seq<T>, key: T -> K): (c: seq<K>)
    ensures |c| == |xs|
    ensures forall i :: 0 <= i < |xs| ==> c[i] == key(xs[i])
  {
    seq(|xs|, i requires 0 <= i < |xs| => key(xs[i]))
  }

  /** The distinct keys of the rows, in order of first appearance. */
  function KeysOf<T, K(==)>(xs: seq<T>, key: T -> K): (ks: seq<K>)
    ensures |ks| <= |xs|
  {
    Dedup(Column(xs, key))
  }

  /** One key per distinct value, none repeated, none missing. */
  lemma KeysOfMeaning<T, K>(xs: seq<T>, key: T -> K)
    ensures NoDups(KeysOf(xs, key))
    ensures forall i :: 0 <= i < |xs| ==> key(xs[i]) in KeysOf(xs, key)
    ensures forall k :: k in KeysOf(xs, key) ==> exists i :: 0 <= i < |xs| && key(xs[i]) == k
  {
    var col := Column(xs, key);
    DedupMeaning(col);
    assert KeysOf(xs, key) == Dedup(col);
    forall i | 0 <= i < |xs| ensures key(xs[i]) in KeysOf(xs, key) {
      assert col[i] in col;
    }
    forall k | k in KeysOf(xs, key) ensures exists i :: 0 <= i < |xs| && key(xs[i]) == k {
      DedupKeeps(col, k);
      var i :| 0 <= i < |col| && col[i] == k;
    }
  }

  /** The per-key totals of a column add up to the column's total. */
  lemma KeySumsAddUp<T, K>(xs: seq<T>, key: T -> K, f: T -> nat)
    ensures SumsFor(xs, key, KeysOf(xs, key), f) == SumOf(xs, f)
  {
    KeysOfMeaning(xs, key);
    GroupSumsPartition(xs, key, KeysOf(xs, key), f);
  }
}
