/** The integer bookkeeping of the evaluation report: the confusion table,
    per-label support, the correct count and the total for the baseline model,
    and the empty case and index-to-label mapping of the LSTM evaluation. */
module Evaluate {
  import opened Wrappers
  import Sequences

  // ---------------------------------------------------------------------------
  // Counting over sequences

  function Min(a: nat, b: nat): nat { if a <= b then a else b }

  /** Python's `zip`: pairs up to the shorter input. */
  function Zip<A, B>(a: seq<A>, b: seq<B>): (r: seq<(A, B)>)
    ensures |r| == Min(|a|, |b|)
    ensures forall i :: 0 <= i < |r| ==> r[i] == (a[i], b[i])
  {
    seq(Min(|a|, |b|), i requires 0 <= i < Min(|a|, |b|) => (a[i], b[i]))
  }

  /** `s.count(v)`. */
  function Count<T(==)>(s: seq<T>, v: T): (r: nat)
    ensures r <= |s|
  {
    if s == [] then 0 else Count(s[..|s| - 1], v) + (if s[|s| - 1] == v then 1 else 0)
  }

  /** The first components of a sequence of pairs. */
  function Firsts<A, B>(pairs: seq<(A, B)>): (r: seq<A>)
    ensures |r| == |pairs|
    ensures forall i :: 0 <= i < |r| ==> r[i] == pairs[i].0
  {
    if pairs == [] then [] else Firsts(pairs[..|pairs| - 1]) + [pairs[|pairs| - 1].0]
  }

  /** The number of pairs whose two components agree. */
  function Matches<T(==)>(pairs: seq<(T, T)>): (r: nat)
    ensures r <= |pairs|
  {
    if pairs == [] then 0
    else Matches(pairs[..|pairs| - 1]) + (if pairs[|pairs| - 1].0 == pairs[|pairs| - 1].1 then 1 else 0)
  }

  predicate NoDup<T(==)>(ks: seq<T>) {
    forall i, j :: 0 <= i < j < |ks| ==> ks[i] != ks[j]
  }

  /** The sum of `f` over the keys `ks`, the shape in which sums over the
      label or prediction set of a dictionary are stated. */
  function SumOf<T>(ks: seq<T>, f: T -> nat): nat {
    if ks == [] then 0 else f(ks[0]) + SumOf(ks[1..], f)
  }

  lemma {:induction false} SumPointwise<T>(ks: seq<T>, f: T -> nat, g: T -> nat, h: T -> nat)
    requires forall k :: k in ks ==> f(k) == g(k) + h(k)
    ensures SumOf(ks, f) == SumOf(ks, g) + SumOf(ks, h)
  {
    if ks != [] {
      SumPointwise(ks[1..], f, g, h);
    }
  }

  lemma {:induction false} SumEqual<T>(ks: seq<T>, f: T -> nat, g: T -> nat)
    requires forall k :: k in ks ==> f(k) == g(k)
    ensures SumOf(ks, f) == SumOf(ks, g)
  {
    if ks != [] {
      SumEqual(ks[1..], f, g);
    }
  }

  /** Over duplicate-free keys, an indicator of one key sums to one if the
      key is present and to zero otherwise. */
  lemma {:induction false} SumIndicator<T>(ks: seq<T>, k0: T, f: T -> nat)
    requires NoDup(ks)
    requires forall k :: k in ks ==> f(k) == if k == k0 then 1 else 0
    ensures SumOf(ks, f) == if k0 in ks then 1 else 0
  {
    if ks != [] {
      assert NoDup(ks[1..]) by {
        forall i, j | 0 <= i < j < |ks[1..]| ensures ks[1..][i] != ks[1..][j] {
          assert ks[1..][i] == ks[i + 1] && ks[1..][j] == ks[j + 1];
        }
      }
      SumIndicator(ks[1..], k0, f);
      if ks[0] == k0 {
        assert k0 !in ks[1..] by {
          forall j | 0 <= j < |ks[1..]| ensures ks[1..][j] != k0 {
            assert ks[1..][j] == ks[j + 1];
          }
        }
      }
    }
  }

  /** The counts of every value, summed over duplicate-free keys that cover
      the sequence, make up its length. */
  lemma {:induction false} CountsSumToLength<T>(s: seq<T>, vs: seq<T>)
    requires NoDup(vs)
    requires forall i :: 0 <= i < |s| ==> s[i] in vs
    ensures SumOf(vs, v => Count(s, v)) == |s|
  {
    if s == [] {
      SumZero(vs, v => Count(s, v));
    } else {
      var s' := s[..|s| - 1];
      var x := s[|s| - 1];
      CountsSumToLength(s', vs);
      SumPointwise(vs, v => Count(s, v), v => Count(s', v), v => if v == x then 1 else 0);
      SumIndicator(vs, x, v => if v == x then 1 else 0);
    }
  }

  lemma {:induction false} SumZero<T>(ks: seq<T>, f: T -> nat)
    requires forall k :: k in ks ==> f(k) == 0
    ensures SumOf(ks, f) == 0
  {
    if ks != [] {
      SumZero(ks[1..], f);
    }
  }

  lemma CountSnoc<T>(s: seq<T>, x: T, v: T)
    ensures Count(s + [x], v) == Count(s, v) + if x == v then 1 else 0
  {
    assert (s + [x])[..|s|] == s;
  }

  /** A value occurs in a sequence exactly when its count is positive. */
  lemma {:induction false} CountPositive<T>(s: seq<T>, v: T)
    ensures Count(s, v) > 0 <==> v in s
  {
    if s != [] {
      var s' := s[..|s| - 1];
      CountPositive(s', v);
      assert s == s' + [s[|s| - 1]];
    }
  }

  // ---------------------------------------------------------------------------
  // _summarise_predictions

  type Confusion = map<string, map<string, nat>>

  /** `confusion.get(l, {}).get(p, 0)`. */
  function Cell(confusion: Confusion, l: string, p: string): nat {
    if l in confusion && p in confusion[l] then confusion[l][p] else 0
  }

  /** Every cell of the table counts its (label, prediction) pair. */
  ghost predicate Tallies(confusion: Confusion, labels: seq<string>, preds: seq<string>) {
    forall l, p :: Cell(confusion, l, p) == Count(Zip(labels, preds), (l, p))
  }

  /** A row exists exactly for the labels that were paired with a prediction,
      and a cell exactly for the pairs that occurred. */
  ghost predicate Populated(confusion: Confusion, labels: seq<string>, preds: seq<string>) {
    var pairs := Zip(labels, preds);
    && (forall l :: l in confusion <==> l in Firsts(pairs))
    && (forall l, p :: l in confusion ==> (p in confusion[l] <==> Count(pairs, (l, p)) > 0))
  }

  /** The tally of a prefix of the zipped pairs, as the loop keeps it. */
  ghost predicate TallyOf(confusion: Confusion, pairs: seq<(string, string)>) {
    && (forall l, p :: Cell(confusion, l, p) == Count(pairs, (l, p)))
    && (forall l :: l in confusion <==> l in Firsts(pairs))
    && (forall l, p :: l in confusion ==> (p in confusion[l] <==> Count(pairs, (l, p)) > 0))
  }

  /** `setdefault(l, {})[p] += 1` on a table. */
  function Bump(confusion: Confusion, x: (string, string)): Confusion {
    confusion[x.0 := (if x.0 in confusion then confusion[x.0] else map[])[x.1 := Cell(confusion, x.0, x.1) + 1]]
  }

  /** The table the loop has built after the given pairs. */
  function TallyMap(pairs: seq<(string, string)>): Confusion {
    if pairs == [] then map[] else Bump(TallyMap(pairs[..|pairs| - 1]), pairs[|pairs| - 1])
  }

  lemma {:induction false} TallyMapIsTally(pairs: seq<(string, string)>)
    ensures TallyOf(TallyMap(pairs), pairs)
  {
    if pairs != [] {
      var p' := pairs[..|pairs| - 1];
      var x := pairs[|pairs| - 1];
      TallyMapIsTally(p');
      assert pairs == p' + [x];
      TallyAppend(TallyMap(p'), p', x, TallyMap(pairs));
    }
  }

  lemma TallyAppend(confusion: Confusion, pairs: seq<(string, string)>, x: (string, string), next: Confusion)
    requires TallyOf(confusion, pairs)
    requires next == Bump(confusion, x)
    ensures TallyOf(next, pairs + [x])
  {
    TallyAppendCells(confusion, pairs, x, next);
    assert Firsts(pairs + [x]) == Firsts(pairs) + [x.0] by {
      assert (pairs + [x])[..|pairs|] == pairs;
    }
    TallyAppendColumns(confusion, pairs, x, next);
  }

  lemma TallyAppendCells(confusion: Confusion, pairs: seq<(string, string)>, x: (string, string), next: Confusion)
    requires forall l, p :: Cell(confusion, l, p) == Count(pairs, (l, p))
    requires next == Bump(confusion, x)
    ensures forall l, p :: Cell(next, l, p) == Count(pairs + [x], (l, p))
  {
    forall l, p ensures Cell(next, l, p) == Count(pairs + [x], (l, p)) {
      CountSnoc(pairs, x, (l, p));
    }
  }

  lemma TallyAppendColumns(confusion: Confusion, pairs: seq<(string, string)>, x: (string, string), next: Confusion)
    requires TallyOf(confusion, pairs)
    requires next == Bump(confusion, x)
    ensures forall l, p :: l in next ==> (p in next[l] <==> Count(pairs + [x], (l, p)) > 0)
  {
    forall l, p | l in next ensures p in next[l] <==> Count(pairs + [x], (l, p)) > 0 {
      CountSnoc(pairs, x, (l, p));
    }
  }

  /** A tally of all the zipped pairs is the finished table. */
  lemma TallyDone(confusion: Confusion, labels: seq<string>, preds: seq<string>)
    requires TallyOf(confusion, Zip(labels, preds))
    ensures Tallies(confusion, labels, preds)
    ensures Populated(confusion, labels, preds)
  {
  }

  /** The loop of lines 89-91: one `setdefault(label, {})[pred] += 1` per
      zipped pair. */
  method ConfusionTable(labels: seq<string>, preds: seq<string>) returns (confusion: Confusion)
    ensures Tallies(confusion, labels, preds)
    ensures Populated(confusion, labels, preds)
  {
    var pairs := Zip(labels, preds);
    confusion := map[];
    var i: nat := 0;
    while i < |pairs|
      invariant i <= |pairs|
      invariant confusion == TallyMap(pairs[..i])
    {
      var (l0, p0) := pairs[i];
      var row := if l0 in confusion then confusion[l0] else map[];
      confusion := confusion[l0 := row[p0 := Cell(confusion, l0, p0) + 1]];
      assert pairs[..i + 1][..i] == pairs[..i];
      i := i + 1;
    }
    assert pairs[..i] == pairs;
    TallyMapIsTally(pairs);
    TallyDone(confusion, labels, preds);
  }

  /** `dict((label, labels.count(label)) for label in set(labels))`. */
  function Support(labels: seq<string>): (r: map<string, nat>)
    ensures forall l :: l in r <==> l in labels
    ensures forall l :: l in r ==> r[l] == Count(labels, l)
  {
    map l | l in labels :: Count(labels, l)
  }

  function SupportOf(support: map<string, nat>, l: string): nat {
    if l in support then support[l] else 0
  }

  /** The number of zipped positions where the label equals the prediction. */
  function Correct(labels: seq<string>, preds: seq<string>): nat {
    Matches(Zip(labels, preds))
  }

  /** The population standard deviation numpy computes is an input. */
  type StdDev = seq<real> -> real

  function Sum(xs: seq<real>): real {
    if xs == [] then 0.0 else Sum(xs[..|xs| - 1]) + xs[|xs| - 1]
  }

  /** `float(confidences.mean()) if len(confidences) else 0.0`, over exact
      reals. */
  function ConfidenceMean(confidences: seq<real>): (r: real)
    ensures confidences == [] ==> r == 0.0
  {
    if |confidences| > 0 then Sum(confidences) / (|confidences| as real) else 0.0
  }

  function ConfidenceStd(confidences: seq<real>, std: StdDev): (r: real)
    ensures confidences == [] ==> r == 0.0
  {
    if |confidences| > 0 then std(confidences) else 0.0
  }

  datatype Summary = Summary(
    support: map<string, nat>,
    correct: nat,
    total: nat,
    confidenceMean: real,
    confidenceStd: real,
    confusion: Confusion)

  /** `_summarise_predictions`; `confidences` are the row maxima of `probs`. */
  method SummarisePredictions(labels: seq<string>, preds: seq<string>, confidences: seq<real>, std: StdDev)
    returns (s: Summary)
    ensures s.support == Support(labels)
    ensures s.correct == Correct(labels, preds) && s.correct <= s.total
    ensures s.total == |labels|
    ensures s.confidenceMean == ConfidenceMean(confidences)
    ensures s.confidenceStd == ConfidenceStd(confidences, std)
    ensures confidences == [] ==> s.confidenceMean == 0.0 && s.confidenceStd == 0.0
    ensures Tallies(s.confusion, labels, preds)
    ensures Populated(s.confusion, labels, preds)
  {
    var confusion := ConfusionTable(labels, preds);
    s := Summary(Support(labels), Correct(labels, preds), |labels|,
                 ConfidenceMean(confidences), ConfidenceStd(confidences, std), confusion);
  }

  // ---------------------------------------------------------------------------
  // Properties of the summary

  /** `0 <= correct <= total`, and correct equals total exactly when every
      label is matched by its prediction. */
  lemma CorrectBounds(labels: seq<string>, preds: seq<string>)
    ensures Correct(labels, preds) <= |labels| && Correct(labels, preds) <= |preds|
    ensures |labels| <= |preds| ==>
      (Correct(labels, preds) == |labels| <==> forall i :: 0 <= i < |labels| ==> labels[i] == preds[i])
  {
    if |labels| <= |preds| {
      MatchesAll(Zip(labels, preds));
    }
  }

  lemma {:induction false} MatchesAll<T>(pairs: seq<(T, T)>)
    ensures Matches(pairs) == |pairs| <==> forall i :: 0 <= i < |pairs| ==> pairs[i].0 == pairs[i].1
  {
    if pairs != [] {
      var p' := pairs[..|pairs| - 1];
      MatchesAll(p');
      if forall i :: 0 <= i < |pairs| ==> pairs[i].0 == pairs[i].1 {
        assert forall i :: 0 <= i < |p'| ==> p'[i].0 == p'[i].1 by {
          forall i | 0 <= i < |p'| ensures p'[i].0 == p'[i].1 {
            assert p'[i] == pairs[i];
          }
        }
      } else if Matches(pairs) == |pairs| {
        assert Matches(p') == |p'|;
        forall i | 0 <= i < |pairs| ensures pairs[i].0 == pairs[i].1 {
          if i < |p'| {
            assert p'[i] == pairs[i];
          }
        }
      }
    }
  }

  /** The supports, summed over the distinct labels, make up the total. */
  lemma SupportsSumToTotal(labels: seq<string>, ls: seq<string>)
    requires NoDup(ls)
    requires forall i :: 0 <= i < |labels| ==> labels[i] in ls
    ensures SumOf(ls, l => SupportOf(Support(labels), l)) == |labels|
  {
    CountsSumToLength(labels, ls);
    forall l | l in ls ensures SupportOf(Support(labels), l) == Count(labels, l) {
      CountPositive(labels, l);
    }
    SumEqual(ls, l => SupportOf(Support(labels), l), l => Count(labels, l));
  }

  lemma {:induction false} PairRowCount(pairs: seq<(string, string)>, l: string, ps: seq<string>)
    requires NoDup(ps)
    requires forall i :: 0 <= i < |pairs| ==> pairs[i].1 in ps
    ensures SumOf(ps, p => Count(pairs, (l, p))) == Count(Firsts(pairs), l)
  {
    if pairs == [] {
      SumZero(ps, p => Count(pairs, (l, p)));
    } else {
      var p' := pairs[..|pairs| - 1];
      var x := pairs[|pairs| - 1];
      assert forall i :: 0 <= i < |p'| ==> p'[i] == pairs[i];
      PairRowCount(p', l, ps);
      assert pairs == p' + [x];
      RowSnoc(p', x, l, ps);
      assert Firsts(pairs) == Firsts(p') + [x.0];
      CountSnoc(Firsts(p'), x.0, l);
    }
  }

  /** The last pair adds one to its own row's sum and nothing elsewhere. */
  lemma RowSnoc(pairs: seq<(string, string)>, x: (string, string), l: string, ps: seq<string>)
    requires NoDup(ps) && x.1 in ps
    ensures SumOf(ps, p => Count(pairs + [x], (l, p))) ==
            SumOf(ps, p => Count(pairs, (l, p))) + (if l == x.0 then 1 else 0)
  {
    var ind := p => if l == x.0 && p == x.1 then 1 else 0;
    forall p | p in ps ensures Count(pairs + [x], (l, p)) == Count(pairs, (l, p)) + ind(p) {
      CountSnoc(pairs, x, (l, p));
    }
    SumPointwise(ps, p => Count(pairs + [x], (l, p)), p => Count(pairs, (l, p)), ind);
    if l == x.0 {
      SumIndicator(ps, x.1, ind);
    } else {
      SumZero(ps, ind);
    }
  }

  /** For equal-length inputs, each row of the confusion table, summed over
      the distinct predictions, is the support of its label. */
  lemma ConfusionRowIsSupport(confusion: Confusion, labels: seq<string>, preds: seq<string>,
                              l: string, ps: seq<string>)
    requires |labels| == |preds|
    requires Tallies(confusion, labels, preds)
    requires NoDup(ps)
    requires forall i :: 0 <= i < |preds| ==> preds[i] in ps
    ensures SumOf(ps, p => Cell(confusion, l, p)) == SupportOf(Support(labels), l)
  {
    var pairs := Zip(labels, preds);
    PairRowCount(pairs, l, ps);
    SumEqual(ps, p => Cell(confusion, l, p), p => Count(pairs, (l, p)));
    assert forall i :: 0 <= i < |labels| ==> Firsts(pairs)[i] == labels[i];
    assert Firsts(pairs) == labels;
    CountPositive(labels, l);
  }

  /** For equal-length inputs, all cells of the confusion table together make
      up the total. */
  lemma ConfusionSumsToTotal(confusion: Confusion, labels: seq<string>, preds: seq<string>,
                             ls: seq<string>, ps: seq<string>)
    requires |labels| == |preds|
    requires Tallies(confusion, labels, preds)
    requires NoDup(ls) && NoDup(ps)
    requires forall i :: 0 <= i < |labels| ==> labels[i] in ls
    requires forall i :: 0 <= i < |preds| ==> preds[i] in ps
    ensures SumOf(ls, l => SumOf(ps, p => Cell(confusion, l, p))) == |labels|
  {
    forall l | l in ls
      ensures SumOf(ps, p => Cell(confusion, l, p)) == SupportOf(Support(labels), l)
    {
      ConfusionRowIsSupport(confusion, labels, preds, l, ps);
    }
    SumEqual(ls, l => SumOf(ps, p => Cell(confusion, l, p)), l => SupportOf(Support(labels), l));
    SupportsSumToTotal(labels, ls);
  }

  lemma {:induction false} DiagonalMatches(pairs: seq<(string, string)>, ls: seq<string>)
    requires NoDup(ls)
    requires forall i :: 0 <= i < |pairs| ==> pairs[i].0 in ls
    ensures SumOf(ls, l => Count(pairs, (l, l))) == Matches(pairs)
  {
    if pairs == [] {
      SumZero(ls, l => Count(pairs, (l, l)));
    } else {
      var p' := pairs[..|pairs| - 1];
      var (l0, p0) := pairs[|pairs| - 1];
      DiagonalMatches(p', ls);
      SumPointwise(ls, l => Count(pairs, (l, l)), l => Count(p', (l, l)),
                   l => if l == l0 && l == p0 then 1 else 0);
      if l0 == p0 {
        SumIndicator(ls, l0, l => if l == l0 && l == p0 then 1 else 0);
      } else {
        SumZero(ls, l => if l == l0 && l == p0 then 1 else 0);
      }
    }
  }

  /** The diagonal of the confusion table sums to the correct count. */
  lemma DiagonalIsCorrect(confusion: Confusion, labels: seq<string>, preds: seq<string>, ls: seq<string>)
    requires Tallies(confusion, labels, preds)
    requires NoDup(ls)
    requires forall i :: 0 <= i < |labels| ==> labels[i] in ls
    ensures SumOf(ls, l => Cell(confusion, l, l)) == Correct(labels, preds)
  {
    var pairs := Zip(labels, preds);
    DiagonalMatches(pairs, ls);
    SumEqual(ls, l => Cell(confusion, l, l), l => Count(pairs, (l, l)));
  }

  /** With exact reals, a mean of confidences lies between their bounds. */
  lemma MeanWithinBounds(confidences: seq<real>, lo: real, hi: real)
    requires confidences != []
    requires forall i :: 0 <= i < |confidences| ==> lo <= confidences[i] <= hi
    ensures lo <= ConfidenceMean(confidences) <= hi
  {
    var n := |confidences| as real;
    SumBounds(confidences, lo, hi);
    var m := Sum(confidences) / n;
    assert (m - lo) * n == Sum(confidences) - lo * n;
    assert (hi - m) * n == hi * n - Sum(confidences);
  }

  lemma {:induction false} SumBounds(xs: seq<real>, lo: real, hi: real)
    requires forall i :: 0 <= i < |xs| ==> lo <= xs[i] <= hi
    ensures lo * (|xs| as real) <= Sum(xs) <= hi * (|xs| as real)
  {
    if xs != [] {
      var xs' := xs[..|xs| - 1];
      assert forall i :: 0 <= i < |xs'| ==> xs'[i] == xs[i];
      SumBounds(xs', lo, hi);
      assert lo * (|xs| as real) == lo * (|xs'| as real) + lo;
      assert hi * (|xs| as real) == hi * (|xs'| as real) + hi;
    }
  }

  // ---------------------------------------------------------------------------
  // _evaluate_lstm

  /** The mapping used when the checkpoint carries no `label_to_idx`. */
  const DefaultLabelToIdx: seq<(string, int)> := [("benign", 0), ("malicious", 1), ("unknown", 2)]

  /** `{idx: label for label, idx in label_to_idx.items()}`: the
      dictionary's items in insertion order; a later label with the same
      index wins. */
  function IdxToLabel(labelToIdx: seq<(string, int)>): (r: map<int, string>)
    ensures forall idx :: idx in r <==> exists i :: 0 <= i < |labelToIdx| && labelToIdx[i].1 == idx
  {
    if labelToIdx == [] then map[]
    else
      var front := labelToIdx[..|labelToIdx| - 1];
      var (l, idx) := labelToIdx[|labelToIdx| - 1];
      assert forall i :: 0 <= i < |front| ==> front[i] == labelToIdx[i];
      IdxToLabel(front)[idx := l]
  }

  /** `idx_to_label.get(int(pred), "unknown")`. */
  function LabelOf(idxToLabel: map<int, string>, pred: int): string {
    if pred in idxToLabel then idxToLabel[pred] else "unknown"
  }

  datatype Confidence = Confidence(mean: real, std: real)

  /** The integer part of the LSTM report; the empty report carries no
      confidence fields. */
  datatype LstmSummary = LstmSummary(support: nat, correct: nat, total: nat, confidence: Option<Confidence>)

  /** `_evaluate_lstm`: `predictions` are the argmax indices and
      `confidences` the softmax maxima the model produces, one per sequence;
      `labelToIdx` is the checkpoint's mapping, if it has one. */
  function EvaluateLstm(sequences: seq<Sequences.SequenceExample>, labelToIdx: Option<seq<(string, int)>>,
                        predictions: seq<int>, confidences: seq<real>, std: StdDev): (r: LstmSummary)
    ensures sequences == [] ==> r == LstmSummary(0, 0, 0, None)
    ensures r.support == r.total == |sequences|
    ensures r.correct <= r.total
    ensures sequences != [] <==> r.confidence.Some?
  {
    if sequences == [] then LstmSummary(0, 0, 0, None)
    else
      var idxToLabel := IdxToLabel(labelToIdx.GetOr(DefaultLabelToIdx));
      var labels := seq(|sequences|, i requires 0 <= i < |sequences| => sequences[i].exampleLabel);
      var preds := seq(|predictions|, i requires 0 <= i < |predictions| => LabelOf(idxToLabel, predictions[i]));
      CorrectBounds(labels, preds);
      LstmSummary(|labels|, Correct(labels, preds), |labels|,
                  Some(Confidence(ConfidenceMean(confidences), ConfidenceStd(confidences, std))))
  }

  /** The correct count of the LSTM report counts the sequences whose label
      equals the label of the predicted index, an unmapped index reading as
      "unknown". */
  lemma LstmCorrectCounts(sequences: seq<Sequences.SequenceExample>, labelToIdx: Option<seq<(string, int)>>,
                          predictions: seq<int>, confidences: seq<real>, std: StdDev)
    requires |predictions| == |sequences|
    ensures var m := IdxToLabel(labelToIdx.GetOr(DefaultLabelToIdx));
      var r := EvaluateLstm(sequences, labelToIdx, predictions, confidences, std);
      r.correct == Matches(seq(|sequences|, i requires 0 <= i < |sequences| =>
                                 (sequences[i].exampleLabel, LabelOf(m, predictions[i]))))
  {
    if sequences != [] {
      var m := IdxToLabel(labelToIdx.GetOr(DefaultLabelToIdx));
      var labels := seq(|sequences|, i requires 0 <= i < |sequences| => sequences[i].exampleLabel);
      var preds := seq(|predictions|, i requires 0 <= i < |predictions| => LabelOf(m, predictions[i]));
      assert Zip(labels, preds) == seq(|sequences|, i requires 0 <= i < |sequences| =>
                                         (sequences[i].exampleLabel, LabelOf(m, predictions[i])));
    }
  }

  /** Under the default mapping indices 0, 1 and 2 read as benign, malicious
      and unknown, and every other index reads as unknown. */
  lemma DefaultLabels(pred: int)
    ensures LabelOf(IdxToLabel(DefaultLabelToIdx), 0) == "benign"
    ensures LabelOf(IdxToLabel(DefaultLabelToIdx), 1) == "malicious"
    ensures LabelOf(IdxToLabel(DefaultLabelToIdx), 2) == "unknown"
    ensures pred !in {0, 1, 2} ==> LabelOf(IdxToLabel(DefaultLabelToIdx), pred) == "unknown"
  {
    var d := DefaultLabelToIdx;
    assert IdxToLabel(d[..0]) == map[];
    assert d[..1] == [("benign", 0)] && d[..1][..0] == d[..0];
    assert d[..2][..1] == d[..1] && d[..2][1] == ("malicious", 1);
    assert d[..3] == d && d[..3][..2] == d[..2] && d[..3][2] == ("unknown", 2);
    assert IdxToLabel(d) == map[0 := "benign", 1 := "malicious", 2 := "unknown"];
  }

  /** An index that no label maps to reads as "unknown". */
  lemma UnmappedIndexIsUnknown(labelToIdx: seq<(string, int)>, pred: int)
    requires forall i :: 0 <= i < |labelToIdx| ==> labelToIdx[i].1 != pred
    ensures LabelOf(IdxToLabel(labelToIdx), pred) == "unknown"
  {
  }

  /** When no two labels share an index, mapping a label to its index and
      back gives the label again. */
  lemma {:induction false} IndexRoundTrip(labelToIdx: seq<(string, int)>, i: nat)
    requires i < |labelToIdx|
    requires forall a, b :: 0 <= a < b < |labelToIdx| ==> labelToIdx[a].1 != labelToIdx[b].1
    ensures LabelOf(IdxToLabel(labelToIdx), labelToIdx[i].1) == labelToIdx[i].0
  {
    var front := labelToIdx[..|labelToIdx| - 1];
    if i < |front| {
      assert front[i] == labelToIdx[i];
      IndexRoundTrip(front, i);
      assert labelToIdx[|labelToIdx| - 1].1 != labelToIdx[i].1;
    }
  }
}
