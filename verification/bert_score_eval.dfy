/** The statistics `bert_score_eval.py` derives from the parsed keyword file
    and the scorer's per-caption precision, recall and F1 lists: the seven
    columns of the results table, the three plain averages, and the F1 mean
    of the rows labelled exactly "O" and exactly "X". The scorer itself is a
    parameter; means are exact reals. */
module BertScoreEval {
  import opened Wrappers
  import opened Seqs
  import opened KeywordFile
  import opened EvalErrors

  /** Precision, recall and F1 per caption pair, as the scorer returns them. */
  datatype Scores = Scores(precision: seq<real>, recall: seq<real>, f1: seq<real>)

  /** What `main` reports: three averages and the two label-conditioned F1
      means. `None` stands for the NaN pandas gives for an empty group. */
  datatype Summary = Summary(
    avgPrecision: real, avgRecall: real, avgF1: real,
    meanF1O: Option<real>, meanF1X: Option<real>)

  /** `sum(xs) / len(xs)`, which raises ZeroDivisionError on an empty list. */
  function Average(xs: seq<real>): (r: Result<real, Error>)
    ensures r.Failure? <==> xs == []
    ensures r.Failure? ==> r.error == DivisionByZero
    ensures r.Success? ==> r.value * |xs| as real == Sum(xs)
  {
    if |xs| == 0 then Failure(DivisionByZero) else Success(Sum(xs) / |xs| as real)
  }

  /** Bounds on every score bound the average. */
  lemma AverageBounded(xs: seq<real>, lo: real, hi: real)
    requires forall k :: 0 <= k < |xs| ==> lo <= xs[k] <= hi
    requires xs != []
    ensures lo <= Average(xs).value <= hi
  {
    SumBounds(xs, lo, hi);
    QuotientWithin(Sum(xs), |xs| as real, lo, hi);
  }

  lemma QuotientWithin(total: real, n: real, lo: real, hi: real)
    requires n > 0.0
    requires n * lo <= total <= n * hi
    ensures lo <= total / n <= hi
  {
    var q := total / n;
    assert q * n == total;
  }

  predicate MarkedO(mark: string) { mark == "O" }
  predicate MarkedX(mark: string) { mark == "X" }

  /** A label that is neither exactly "O" nor exactly "X" ("o", "O ", ""). */
  predicate Unmarked(mark: string) { !MarkedO(mark) && !MarkedX(mark) }

  /** The scores of the rows whose label passes `keep`, in row order: the
      boolean-mask selection `df[df[label] == mark][score]`. */
  function Where(labels: seq<string>, xs: seq<real>, keep: string -> bool): (r: seq<real>)
    requires |labels| == |xs|
    ensures |r| <= |xs|
    ensures r == [] <==> forall k :: 0 <= k < |labels| ==> !keep(labels[k])
    decreases |xs|
  {
    if xs == [] then []
    else
      var n := |xs| - 1;
      var front := Where(labels[..n], xs[..n], keep);
      assert forall k :: 0 <= k < n ==> labels[..n][k] == labels[k];
      if keep(labels[n]) then front + [xs[n]] else front
  }

  /** Exactly the rows labelled `mark` are selected by `MarkedO`/`MarkedX`. */
  lemma WhereCountsMark(labels: seq<string>, xs: seq<real>)
    requires |labels| == |xs|
    ensures |Where(labels, xs, MarkedO)| == Count(labels, "O")
    ensures |Where(labels, xs, MarkedX)| == Count(labels, "X")
  {
    WhereCounts(labels, xs, MarkedO, "O");
    WhereCounts(labels, xs, MarkedX, "X");
  }

  /** A selection by equality with one label has as many rows as that label
      occurs. */
  lemma {:induction false} WhereCounts(labels: seq<string>, xs: seq<real>, keep: string -> bool, mark: string)
    requires |labels| == |xs|
    requires forall s :: keep(s) <==> s == mark
    ensures |Where(labels, xs, keep)| == Count(labels, mark)
    decreases |xs|
  {
    if xs != [] {
      var n := |xs| - 1;
      WhereCounts(labels[..n], xs[..n], keep, mark);
    }
  }

  /** Every row lands in exactly one of the "O" group, the "X" group and the
      group of other labels: sizes and sums add up to the whole column. */
  lemma {:induction false} WherePartition(labels: seq<string>, xs: seq<real>)
    requires |labels| == |xs|
    ensures |Where(labels, xs, MarkedO)| + |Where(labels, xs, MarkedX)| + |Where(labels, xs, Unmarked)| == |xs|
    ensures Sum(Where(labels, xs, MarkedO)) + Sum(Where(labels, xs, MarkedX)) + Sum(Where(labels, xs, Unmarked))
         == Sum(xs)
    decreases |xs|
  {
    if xs != [] {
      var n := |xs| - 1;
      WherePartition(labels[..n], xs[..n]);
      SumAppend(Where(labels[..n], xs[..n], MarkedO), [xs[n]]);
      SumAppend(Where(labels[..n], xs[..n], MarkedX), [xs[n]]);
      SumAppend(Where(labels[..n], xs[..n], Unmarked), [xs[n]]);
    }
  }

  /** The pandas `.mean()` of the selected rows; `None` models the NaN of an
      empty selection. */
  function LabelMean(labels: seq<string>, xs: seq<real>, keep: string -> bool): (r: Option<real>)
    requires |labels| == |xs|
    ensures r.None? <==> forall k :: 0 <= k < |labels| ==> !keep(labels[k])
    ensures r.Some? ==> r.value * |Where(labels, xs, keep)| as real == Sum(Where(labels, xs, keep))
  {
    var picked := Where(labels, xs, keep);
    if picked == [] then None else Some(Sum(picked) / |picked| as real)
  }

  /** A group's mean times its size is the group's total, and an empty
      group (NaN) contributes nothing. */
  function GroupTotal(labels: seq<string>, xs: seq<real>, keep: string -> bool): real
    requires |labels| == |xs|
  {
    var m := LabelMean(labels, xs, keep);
    if m.Some? then m.value * |Where(labels, xs, keep)| as real else 0.0
  }

  /** When every label is "O" or "X", the two group means, weighted by the
      group sizes, give back the total F1. */
  lemma GroupMeansRecoverTotal(labels: seq<string>, xs: seq<real>)
    requires |labels| == |xs|
    requires forall k :: 0 <= k < |labels| ==> !Unmarked(labels[k])
    ensures GroupTotal(labels, xs, MarkedO) + GroupTotal(labels, xs, MarkedX) == Sum(xs)
  {
    WherePartition(labels, xs);
    assert Where(labels, xs, Unmarked) == [];
    GroupTotalIsSum(labels, xs, MarkedO);
    GroupTotalIsSum(labels, xs, MarkedX);
  }

  lemma GroupTotalIsSum(labels: seq<string>, xs: seq<real>, keep: string -> bool)
    requires |labels| == |xs|
    ensures GroupTotal(labels, xs, keep) == Sum(Where(labels, xs, keep))
  {
    if Where(labels, xs, keep) == [] {
      assert Sum([]) == 0.0;
    }
  }

  /** The seven columns handed to the DataFrame constructor, which refuses
      columns of unequal length. */
  predicate ColumnsAgree(p: Parsed, s: Scores) {
    var n := |p.imageFiles|;
    && |p.captions| == n && |p.keywords| == n && |p.labels| == n
    && |s.precision| == n && |s.recall| == n && |s.f1| == n
  }

  /** The scorer returns one score per caption pair, as a scorer does. */
  predicate ScoresFit(s: Scores, n: nat) {
    |s.precision| == n && |s.recall| == n && |s.f1| == n
  }

  /** `main` after the file has been read: build the table, average the three
      score lists, then take the label-conditioned F1 means. */
  function Summarize(p: Parsed, s: Scores): (r: Result<Summary, Error>)
    ensures r.Failure? ==> r.error == ColumnLengthMismatch || r.error == DivisionByZero
    ensures !ColumnsAgree(p, s) ==> r == Failure(ColumnLengthMismatch)
    ensures ColumnsAgree(p, s) ==> (r.Success? <==> p.imageFiles != [])
  {
    if !ColumnsAgree(p, s) then
      Failure(ColumnLengthMismatch)
    else
      if |s.precision| == 0 then
        Failure(DivisionByZero)
      else
        Success(Summary(Average(s.precision).value, Average(s.recall).value, Average(s.f1).value,
                        LabelMean(p.labels, s.f1, MarkedO), LabelMean(p.labels, s.f1, MarkedX)))
  }

  /** The whole script: a missing `keyword.txt` fails at `open`, before the
      scorer runs. */
  function Evaluate(file: Option<seq<string>>, scorer: (seq<string>, seq<string>) -> Scores): (r: Result<Summary, Error>)
    ensures file.None? <==> r == Failure(FileNotFound)
  {
    if file.None? then
      Failure(FileNotFound)
    else
      var p := Parse(file.value);
      Summarize(p, scorer(p.captions, p.keywords))
  }

  /** With a scorer that returns one score per caption pair, the evaluation
      completes exactly when every line that passes the " : " split also
      passes the " / " split and at least one line passes both. */
  lemma EvaluateSucceedsIff(lines: seq<string>, scorer: (seq<string>, seq<string>) -> Scores)
    requires var p := Parse(lines); ScoresFit(scorer(p.captions, p.keywords), |p.captions|)
    ensures Evaluate(Some(lines), scorer).Success?
        <==> NameOnlyCount(lines) == 0 && |Parse(lines).captions| > 0
  {
    ParseLengths(lines);
  }

  /** One image name without fields is enough to stop the script at the
      DataFrame constructor. */
  lemma MisalignedLineAbortsEvaluation(lines: seq<string>, scorer: (seq<string>, seq<string>) -> Scores)
    requires var p := Parse(lines); ScoresFit(scorer(p.captions, p.keywords), |p.captions|)
    requires NameOnlyCount(lines) > 0
    ensures Evaluate(Some(lines), scorer) == Failure(ColumnLengthMismatch)
  {
    ParseLengths(lines);
  }

  /** Scores in [0, 1] keep all three averages, and both group means, in
      [0, 1]. */
  lemma SummaryBounded(p: Parsed, s: Scores)
    requires Summarize(p, s).Success?
    requires forall k :: 0 <= k < |s.precision| ==> 0.0 <= s.precision[k] <= 1.0
    requires forall k :: 0 <= k < |s.recall| ==> 0.0 <= s.recall[k] <= 1.0
    requires forall k :: 0 <= k < |s.f1| ==> 0.0 <= s.f1[k] <= 1.0
    ensures var m := Summarize(p, s).value;
      && 0.0 <= m.avgPrecision <= 1.0 && 0.0 <= m.avgRecall <= 1.0 && 0.0 <= m.avgF1 <= 1.0
      && (m.meanF1O.Some? ==> 0.0 <= m.meanF1O.value <= 1.0)
      && (m.meanF1X.Some? ==> 0.0 <= m.meanF1X.value <= 1.0)
  {
    AverageBounded(s.precision, 0.0, 1.0);
    AverageBounded(s.recall, 0.0, 1.0);
    AverageBounded(s.f1, 0.0, 1.0);
    WhereBounded(p.labels, s.f1, MarkedO);
    WhereBounded(p.labels, s.f1, MarkedX);
  }

  /** A selection inherits the bounds of the column and, when non-empty,
      so does its mean. */
  lemma WhereBounded(labels: seq<string>, xs: seq<real>, keep: string -> bool)
    requires |labels| == |xs|
    requires forall k :: 0 <= k < |xs| ==> 0.0 <= xs[k] <= 1.0
    ensures forall k :: 0 <= k < |Where(labels, xs, keep)| ==> 0.0 <= Where(labels, xs, keep)[k] <= 1.0
    ensures var m := LabelMean(labels, xs, keep); m.Some? ==> 0.0 <= m.value <= 1.0
  {
    var picked := Where(labels, xs, keep);
    WhereElementsBounded(labels, xs, keep);
    if picked != [] {
      AverageBounded(picked, 0.0, 1.0);
    }
  }

  lemma {:induction false} WhereElementsBounded(labels: seq<string>, xs: seq<real>, keep: string -> bool)
    requires |labels| == |xs|
    requires forall k :: 0 <= k < |xs| ==> 0.0 <= xs[k] <= 1.0
    ensures forall k :: 0 <= k < |Where(labels, xs, keep)| ==> 0.0 <= Where(labels, xs, keep)[k] <= 1.0
    decreases |xs|
  {
    if xs != [] {
      var n := |xs| - 1;
      WhereElementsBounded(labels[..n], xs[..n], keep);
    }
  }

  /** Two "O" rows with F1 0.8 and 0.6 and one "X" row with 0.2. */
  lemma ThreeRowExample()
    ensures LabelMean(["O", "O", "X"], [0.8, 0.6, 0.2], MarkedO) == Some(0.7)
    ensures LabelMean(["O", "O", "X"], [0.8, 0.6, 0.2], MarkedX) == Some(0.2)
    ensures Average([0.8, 0.6, 0.2]) == Success(1.6 / 3.0)
  {
    ThreeRowGroups();
    SumPair(0.8, 0.6);
    SumPair(0.0, 0.2);
    SumTriple(0.8, 0.6, 0.2);
  }

  lemma ThreeRowGroups()
    ensures Where(["O", "O", "X"], [0.8, 0.6, 0.2], MarkedO) == [0.8, 0.6]
    ensures Where(["O", "O", "X"], [0.8, 0.6, 0.2], MarkedX) == [0.2]
  {
    assert ["O", "O", "X"][..2] == ["O", "O"] && [0.8, 0.6, 0.2][..2] == [0.8, 0.6];
    assert ["O", "O"][..1] == ["O"] && [0.8, 0.6][..1] == [0.8];
    assert ["O"][..0] == [] && [0.8][..0] == [];
    assert Where(["O"], [0.8], MarkedO) == [0.8];
    assert Where(["O"], [0.8], MarkedX) == [];
  }

  lemma SumPair(a: real, b: real)
    ensures Sum([a, b]) == a + b
    ensures Sum([b]) == b
  {
    assert [a, b][..1] == [a];
    assert [a][..0] == [];
    assert [b][..0] == [];
    assert Sum([a]) == a;
  }

  lemma SumTriple(a: real, b: real, c: real)
    ensures Sum([a, b, c]) == a + b + c
  {
    assert [a, b, c][..2] == [a, b];
    SumPair(a, b);
  }
}
