/** The "dumb" baseline predictors: each stores the training targets once and
    predicts every queried record with the same statistic of those targets
    (mean, median or mode), ignoring the records' feature values. */
module Baselines {
  import opened Statistics

  /** One predicted value: a number for the regressor and the ordinal
      classifier, a label drawn from the targets for the nominal classifier. */
  datatype Prediction<T> = Number(value: real) | Label(category: T)

  /** A predictor together with the targets it was constructed with. The
      targets are stored as given and never change afterwards. */
  datatype Predictor<T> =
    | Regressor(values: seq<real>)
    | OrdinalClassifier(values: seq<real>)
    | NominalClassifier(labels: seq<T>)
  {
    /** The statistic is defined only for a non-empty target sequence. */
    predicate HasTargets()
    {
      match this
      case Regressor(v) => |v| > 0
      case OrdinalClassifier(v) => |v| > 0
      case NominalClassifier(l) => |l| > 0
    }
  }

  /** A one- or two-dimensional batch of feature values. */
  datatype Features<F> = Vector(elements: seq<F>) | Matrix(rows: seq<seq<F>>)

  /** The length of the batch's first dimension: the number of records. */
  function RecordCount<F>(features: Features<F>): nat
  {
    match features
    case Vector(e) => |e|
    case Matrix(r) => |r|
  }

  /** A one-dimensional batch has as many records as the single-column
      two-dimensional batch holding the same values. */
  lemma VectorAsColumn<F>(elements: seq<F>)
    ensures RecordCount(Vector(elements)) == RecordCount(Matrix(seq(|elements|, i requires 0 <= i < |elements| => [elements[i]])))
  {
  }

  /** The single statistic a predictor guesses for every record. */
  function SinglePredict<T(==)>(p: Predictor<T>): (r: Prediction<T>)
    requires p.HasTargets()
    ensures p.Regressor? ==>
      r.Number? && Min(p.values) <= r.value <= Max(p.values)
    ensures p.OrdinalClassifier? ==>
      r.Number? && Min(p.values) <= r.value <= Max(p.values)
      && forall t :: Sorted(t) && multiset(t) == multiset(p.values) ==> r.value == Middle(t)
    ensures p.NominalClassifier? ==> r.Label? && IsMode(p.labels, r.category)
  {
    match p
    case Regressor(v) =>
      Number(Mean(v))
    case OrdinalClassifier(v) =>
      assert forall t :: Sorted(t) && multiset(t) == multiset(v) ==> Median(v) == Middle(t) by {
        forall t | Sorted(t) && multiset(t) == multiset(v) ensures Median(v) == Middle(t) {
          MedianOfSortedPermutation(v, t);
        }
      }
      Number(Median(v))
    case NominalClassifier(l) =>
      Label(Mode(l))
  }

  /** `n` copies of `v`. */
  function Full<V>(n: nat, v: V): (r: seq<V>)
    ensures |r| == n
    ensures forall i :: 0 <= i < n ==> r[i] == v
  {
    if n == 0 then [] else [v] + Full(n - 1, v)
  }

  /** Predicts every record of the batch: one copy of the statistic per record. */
  function Predict<T(==), F>(p: Predictor<T>, features: Features<F>): (r: seq<Prediction<T>>)
    requires p.HasTargets()
    ensures |r| == RecordCount(features)
    ensures forall i :: 0 <= i < |r| ==> r[i] == SinglePredict(p)
  {
    Full(RecordCount(features), SinglePredict(p))
  }

  /** Only the number of records matters: two batches with equally many
      records, whatever their values or dimension, get the same predictions. */
  lemma PredictIgnoresFeatureValues<T, F, G>(p: Predictor<T>, a: Features<F>, b: Features<G>)
    requires p.HasTargets()
    requires RecordCount(a) == RecordCount(b)
    ensures Predict(p, a) == Predict(p, b)
  {
  }

  /** Every prediction of a regressor is the mean of its targets. */
  lemma RegressorPredictsMean<T, F>(values: seq<real>, features: Features<F>, i: nat)
    requires |values| > 0
    requires i < RecordCount(features)
    ensures Predict(Predictor<T>.Regressor(values), features)[i] == Number(Mean(values))
  {
  }

  /** Every prediction of an ordinal classifier is the median of its targets. */
  lemma OrdinalPredictsMedian<T, F>(values: seq<real>, features: Features<F>, i: nat)
    requires |values| > 0
    requires i < RecordCount(features)
    ensures Predict(Predictor<T>.OrdinalClassifier(values), features)[i] == Number(Median(values))
  {
  }

  /** When one label occurs strictly more often than every other, the nominal
      classifier predicts that label for every record. */
  lemma NominalPredictsUniqueMode<T, F>(labels: seq<T>, u: T, features: Features<F>, i: nat)
    requires u in labels
    requires forall j :: 0 <= j < |labels| && labels[j] != u ==> Count(labels, labels[j]) < Count(labels, u)
    requires i < RecordCount(features)
    ensures Predict(NominalClassifier(labels), features)[i] == Label(u)
  {
    ModeUnique(labels, u);
  }

  // ---------------------------------------------------------------------
  // Worked examples
  // ---------------------------------------------------------------------

  /** Regressor on [1, 2, 3, 4] predicts 2.5 for each of three records. */
  lemma RegressorExample()
    ensures Predict(Predictor<string>.Regressor([1.0, 2.0, 3.0, 4.0]), Matrix([[0.0], [0.0], [0.0]]))
         == [Number(2.5), Number(2.5), Number(2.5)]
  {
    assert Sum([1.0, 2.0, 3.0, 4.0]) == 10.0;
  }

  /** Ordinal classifier on any arrangement of [1, 2, 3, 4, 100] (odd length)
      predicts the middle value 3. */
  lemma OrdinalOddExample(targets: seq<real>)
    requires multiset(targets) == multiset{1.0, 2.0, 3.0, 4.0, 100.0}
    ensures Predict(Predictor<string>.OrdinalClassifier(targets), Vector([7.0, 8.0]))
         == [Number(3.0), Number(3.0)]
  {
    var t := [1.0, 2.0, 3.0, 4.0, 100.0];
    assert multiset(t) == multiset{1.0, 2.0, 3.0, 4.0, 100.0};
    assert |targets| == |multiset(targets)| == 5;
    assert Sorted(t);
    MedianOfSortedPermutation(targets, t);
    assert Median(targets) == 3.0;
  }

  /** Ordinal classifier on any arrangement of [1, 2, 4, 4] (even length)
      predicts (2 + 4) / 2 = 3. */
  lemma OrdinalEvenExample(targets: seq<real>)
    requires multiset(targets) == multiset{1.0, 2.0, 4.0, 4.0}
    ensures Predict(Predictor<string>.OrdinalClassifier(targets), Vector([0.0])) == [Number(3.0)]
  {
    var t := [1.0, 2.0, 4.0, 4.0];
    assert multiset(t) == multiset{1.0, 2.0, 4.0, 4.0};
    assert |targets| == |multiset(targets)| == 4;
    assert Sorted(t);
    MedianOfSortedPermutation(targets, t);
    assert Median(targets) == 3.0;
  }

  /** Nominal classifier on ["a", "b", "b", "c"] predicts "b" for each of two records. */
  lemma NominalExample()
    ensures Predict(NominalClassifier(["a", "b", "b", "c"]), Matrix([[1.0, 2.0], [3.0, 4.0]]))
         == [Label("b"), Label("b")]
  {
    var l := ["a", "b", "b", "c"];
    assert multiset(l) == multiset{"a", "b", "b", "c"};
    ModeUnique(l, "b");
  }

  /** Zero records give an empty prediction. */
  lemma EmptyBatchExample()
    ensures Predict(Predictor<string>.Regressor([5.0]), Features<real>.Matrix([])) == []
  {
  }
}
