/**
 * The bookkeeping of one training run of the pixel classifier pane
 * (PixelClassifierPane.doClassification and logVariableImportance): the
 * choice between capping and shuffling the training samples, the per-class
 * sample counts, inverse-frequency reweighting, the count of correct
 * predictions behind the reported accuracy, the output channel type, the
 * inversion of the class-to-label map and the ranking of feature importance.
 *
 * The statistical model, OpenCV's training data and the preprocessing are
 * outside the model: their outputs (label buffers, predictions, importance
 * values, probability support) arrive here as plain inputs.
 */
module TrainingBookkeeping {
  import opened Optional
  import PathClassTools

  type PathClass = PathClassTools.PathClass

  /** One entry of the class-to-label map, in the map's iteration order. */
  type LabelEntry = (PathClass, int)

  // ---------------------------------------------------------------------
  // Capping the training samples or shuffling them

  /** What happens to the training data before preprocessing. */
  datatype SampleSplit = TrainTestSplit(count: int) | ShuffleTrainTest

  /**
   * A split of maxSamples training samples is requested only when a
   * positive cap is smaller than the number of available samples.
   */
  function ChooseSampleSplit(maxSamples: int, nTrainSamples: int): (r: SampleSplit)
    ensures r.TrainTestSplit? <==> 0 < maxSamples < nTrainSamples
    ensures r.TrainTestSplit? ==> r.count == maxSamples
  {
    if maxSamples > 0 && nTrainSamples > maxSamples then TrainTestSplit(maxSamples) else ShuffleTrainTest
  }

  /** A requested split makes the training set strictly smaller and never empty; a cap of 0 or less always shuffles. */
  lemma SampleCapShrinks(maxSamples: int, nTrainSamples: int)
    ensures ChooseSampleSplit(maxSamples, nTrainSamples).TrainTestSplit? ==>
              0 < ChooseSampleSplit(maxSamples, nTrainSamples).count < nTrainSamples
    ensures maxSamples <= 0 ==> ChooseSampleSplit(maxSamples, nTrainSamples) == ShuffleTrainTest
  {
  }

  // ---------------------------------------------------------------------
  // Counting samples per class

  /** Number of positions of s that hold k. */
  function CountOf(s: seq<int>, k: int): (c: nat)
    ensures c <= |s|
  {
    if s == [] then 0 else CountOf(s[..|s| - 1], k) + (if s[|s| - 1] == k then 1 else 0)
  }

  predicate AllInRange(s: seq<int>, size: int) {
    forall i :: 0 <= i < |s| ==> 0 <= s[i] < size
  }

  /** The count of every label 0 .. size - 1. */
  function ClassCounts(s: seq<int>, size: nat): seq<nat> {
    seq(size, k => CountOf(s, k))
  }

  function Sum(s: seq<nat>): nat {
    if s == [] then 0 else Sum(s[..|s| - 1]) + s[|s| - 1]
  }

  /** Adding one to a single entry adds one to the sum. */
  lemma {:induction false} SumBump(a: seq<nat>, b: seq<nat>, e: nat)
    requires |a| == |b| && e < |a|
    requires b[e] == a[e] + 1
    requires forall k :: 0 <= k < |a| && k != e ==> b[k] == a[k]
    ensures Sum(b) == Sum(a) + 1
  {
    var m := |a| - 1;
    if e < m {
      SumBump(a[..m], b[..m], e);
    } else {
      assert a[..m] == b[..m];
    }
  }

  /** A position holding k makes the count of k positive. */
  lemma {:induction false} CountOfPositive(s: seq<int>, i: nat)
    requires i < |s|
    ensures CountOf(s, s[i]) > 0
  {
    if i < |s| - 1 {
      CountOfPositive(s[..|s| - 1], i);
    }
  }

  /** When every label is in range, the per-class counts add up to the number of samples. */
  lemma {:induction false} CountsSumToTotal(s: seq<int>, size: nat)
    requires AllInRange(s, size)
    ensures Sum(ClassCounts(s, size)) == |s|
  {
    if s == [] {
      if size > 0 {
        SumOfZeros(ClassCounts(s, size));
      } else {
        assert ClassCounts(s, size) == [];
      }
    } else {
      var prefix, last := s[..|s| - 1], s[|s| - 1];
      CountsSumToTotal(prefix, size);
      SumBump(ClassCounts(prefix, size), ClassCounts(s, size), last);
    }
  }

  lemma {:induction false} SumOfZeros(a: seq<nat>)
    requires forall k :: 0 <= k < |a| ==> a[k] == 0
    ensures Sum(a) == 0
  {
    if a != [] {
      SumOfZeros(a[..|a| - 1]);
    }
  }

  /**
   * The counting loop of PixelClassifierPane.doClassification
   * (PixelClassifierPane.java:784-787): rawCounts[k] is the number of training
   * samples whose label is k.
   */
  method CountClasses(targets: array<int>, numLabels: nat) returns (rawCounts: array<int>)
    requires AllInRange(targets[..], numLabels)
    ensures fresh(rawCounts) && rawCounts.Length == numLabels
    ensures forall k :: 0 <= k < numLabels ==> rawCounts[k] == CountOf(targets[..], k)
  {
    rawCounts := new int[numLabels](_ => 0);
    var i := 0;
    while i < targets.Length
      invariant 0 <= i <= targets.Length
      invariant forall k :: 0 <= k < numLabels ==> rawCounts[k] == CountOf(targets[..i], k)
    {
      assert targets[..i + 1][..i] == targets[..i];
      var t := targets[i];
      rawCounts[t] := rawCounts[t] + 1;
      i := i + 1;
    }
    assert targets[..targets.Length] == targets[..];
  }

  predicate ClassesDistinct(labels: seq<LabelEntry>) {
    forall i, j :: 0 <= i < j < |labels| ==> labels[i].0 != labels[j].0
  }

  /**
   * The loop of PixelClassifierPane.doClassification that fills the pie
   * chart counts (PixelClassifierPane.java:788-791): one count per entry of the label map, in
   * the map's order, each the raw count of that entry's label.
   */
  method CountsPerClass(labels: seq<LabelEntry>, rawCounts: array<int>) returns (counts: seq<(PathClass, int)>)
    requires ClassesDistinct(labels)
    requires forall i :: 0 <= i < |labels| ==> 0 <= labels[i].1 < rawCounts.Length
    ensures |counts| == |labels|
    ensures forall i :: 0 <= i < |labels| ==> counts[i] == (labels[i].0, rawCounts[labels[i].1])
  {
    counts := [];
    var i := 0;
    while i < |labels|
      invariant 0 <= i <= |labels|
      invariant |counts| == i
      invariant forall j :: 0 <= j < i ==> counts[j] == (labels[j].0, rawCounts[labels[j].1])
    {
      counts := counts + [(labels[i].0, rawCounts[labels[i].1])];
      i := i + 1;
    }
  }

  // ---------------------------------------------------------------------
  // Inverse-frequency reweighting

  /** The weight of a class with count samples out of n: 1 for an empty class, n / count otherwise. */
  function ClassWeight(n: nat, count: int): real {
    if count == 0 then 1.0 else n as real / count as real
  }

  /**
   * Lines 798-807: one weight per class, then one weight per training
   * sample, the weight of its own label.
   */
  method ReweightSamples(targets: array<int>, rawCounts: array<int>) returns (weightArray: array<real>, weights: array<real>)
    requires AllInRange(targets[..], rawCounts.Length)
    ensures fresh(weightArray) && fresh(weights)
    ensures weightArray.Length == rawCounts.Length && weights.Length == targets.Length
    ensures forall k :: 0 <= k < rawCounts.Length ==> weightArray[k] == ClassWeight(targets.Length, rawCounts[k])
    ensures forall i :: 0 <= i < targets.Length ==> weights[i] == ClassWeight(targets.Length, rawCounts[targets[i]])
  {
    var n := targets.Length;
    weightArray := new real[rawCounts.Length];
    var k := 0;
    while k < weightArray.Length
      invariant 0 <= k <= weightArray.Length
      invariant forall j :: 0 <= j < k ==> weightArray[j] == ClassWeight(n, rawCounts[j])
    {
      var c := rawCounts[k];
      weightArray[k] := if c == 0 then 1.0 else n as real / c as real;
      k := k + 1;
    }
    weights := new real[n];
    var i := 0;
    while i < n
      invariant 0 <= i <= n
      invariant forall j :: 0 <= j < weightArray.Length ==> weightArray[j] == ClassWeight(n, rawCounts[j])
      invariant forall j :: 0 <= j < i ==> weights[j] == weightArray[targets[j]]
    {
      weights[i] := weightArray[targets[i]];
      i := i + 1;
    }
  }

  /** The total weight of the samples labelled k. */
  function WeightOfClass(labels: seq<int>, weights: seq<real>, k: int): real
    requires |weights| == |labels|
  {
    if labels == [] then 0.0
    else
      var m := |labels| - 1;
      WeightOfClass(labels[..m], weights[..m], k) + (if labels[m] == k then weights[m] else 0.0)
  }

  lemma {:induction false} WeightOfClassConstant(labels: seq<int>, weights: seq<real>, k: int, w: real)
    requires |weights| == |labels|
    requires forall i :: 0 <= i < |labels| && labels[i] == k ==> weights[i] == w
    ensures WeightOfClass(labels, weights, k) == CountOf(labels, k) as real * w
  {
    if labels != [] {
      var m := |labels| - 1;
      WeightOfClassConstant(labels[..m], weights[..m], k, w);
    }
  }

  /** For an observed class, weight times count is the number of samples. */
  lemma WeightTimesCount(n: nat, count: nat, w: real)
    requires count > 0 && w == ClassWeight(n, count)
    ensures w * count as real == n as real
  {
  }

  /** Every sample labelled k carries the weight of class k. */
  lemma RowsShareWeight(labels: seq<int>, weights: seq<real>, k: int)
    requires |weights| == |labels|
    requires forall i :: 0 <= i < |labels| ==> weights[i] == ClassWeight(|labels|, CountOf(labels, labels[i]))
    ensures forall i :: 0 <= i < |labels| && labels[i] == k ==> weights[i] == ClassWeight(|labels|, CountOf(labels, k))
  {
  }

  /** The samples of an observed class, all of weight w, together weigh n. */
  lemma ClassWeighsTotal(labels: seq<int>, weights: seq<real>, k: int, w: real)
    requires |weights| == |labels|
    requires forall i :: 0 <= i < |labels| && labels[i] == k ==> weights[i] == w
    requires CountOf(labels, k) > 0
    requires w == ClassWeight(|labels|, CountOf(labels, k))
    ensures WeightOfClass(labels, weights, k) == |labels| as real
  {
    WeightOfClassConstant(labels, weights, k, w);
    WeightTimesCount(|labels|, CountOf(labels, k), w);
  }

  /**
   * With the weights ReweightSamples assigns from the true counts, the
   * samples of each observed class together weigh n: inverse-frequency
   * weighting gives every observed class the same total weight.
   */
  lemma WeightsBalanceClasses(labels: seq<int>, weights: seq<real>)
    requires |weights| == |labels|
    requires forall i :: 0 <= i < |labels| ==> weights[i] == ClassWeight(|labels|, CountOf(labels, labels[i]))
    ensures forall k :: CountOf(labels, k) > 0 ==> WeightOfClass(labels, weights, k) == |labels| as real
  {
    forall k | CountOf(labels, k) > 0
      ensures WeightOfClass(labels, weights, k) == |labels| as real
    {
      RowsShareWeight(labels, weights, k);
      ClassWeighsTotal(labels, weights, k, ClassWeight(|labels|, CountOf(labels, k)));
    }
  }

  /**
   * Lines 784-807 together: count the labels, then reweight; every observed
   * class ends up with total weight n.
   */
  method WeightedTargets(targets: array<int>, numLabels: nat) returns (rawCounts: array<int>, weights: array<real>)
    requires AllInRange(targets[..], numLabels)
    ensures fresh(rawCounts) && rawCounts.Length == numLabels
    ensures forall k :: 0 <= k < numLabels ==> rawCounts[k] == CountOf(targets[..], k)
    ensures weights.Length == targets.Length
    ensures forall k :: CountOf(targets[..], k) > 0 ==> WeightOfClass(targets[..], weights[..], k) == targets.Length as real
  {
    rawCounts := CountClasses(targets, numLabels);
    var weightArray;
    weightArray, weights := ReweightSamples(targets, rawCounts);
    forall i | 0 <= i < targets.Length
      ensures weights[..][i] == ClassWeight(targets.Length, CountOf(targets[..], targets[..][i]))
    {
      assert rawCounts[targets[i]] == CountOf(targets[..], targets[i]);
    }
    WeightsBalanceClasses(targets[..], weights[..]);
  }

  // ---------------------------------------------------------------------
  // Accuracy

  /** The samples the accuracy is computed on: a held-out test set, or the training set itself. */
  datatype EvaluationSet = HeldOutTrainingSet | TrainingSet

  /** Number of positions i < |predicted| where the prediction equals the reference label. */
  function Matches(predicted: seq<int>, reference: seq<int>): (c: nat)
    requires |predicted| <= |reference|
    ensures c <= |predicted|
  {
    if predicted == [] then 0
    else
      var m := |predicted| - 1;
      Matches(predicted[..m], reference) + (if predicted[m] == reference[m] then 1 else 0)
  }

  /** The match count equals the number of predictions exactly when every prediction is right, and is 0 exactly when none is. */
  lemma {:induction false} MatchesBounds(predicted: seq<int>, reference: seq<int>)
    requires |predicted| <= |reference|
    ensures Matches(predicted, reference) == |predicted| <==>
              forall i :: 0 <= i < |predicted| ==> predicted[i] == reference[i]
    ensures Matches(predicted, reference) == 0 <==>
              forall i :: 0 <= i < |predicted| ==> predicted[i] != reference[i]
  {
    if predicted != [] {
      var m := |predicted| - 1;
      MatchesBounds(predicted[..m], reference);
      assert forall i :: 0 <= i < m ==> predicted[..m][i] == predicted[i];
    }
  }

  /** Lines 830-835: counts the predictions that equal the reference label. */
  method CountCorrect(results: array<int>, reference: array<int>) returns (nCorrect: nat)
    requires results.Length <= reference.Length
    ensures nCorrect <= results.Length
    ensures nCorrect == Matches(results[..], reference[..])
  {
    nCorrect := 0;
    var i := 0;
    while i < results.Length
      invariant 0 <= i <= results.Length
      invariant nCorrect == Matches(results[..i], reference[..])
    {
      assert results[..i + 1][..i] == results[..i];
      if results[i] == reference[i] {
        nCorrect := nCorrect + 1;
      }
      i := i + 1;
    }
    assert results[..results.Length] == results[..];
    MatchesBounds(results[..], reference[..]);
  }

  /**
   * Lines 818-835: without a held-out set the predictions are compared with
   * the training labels and reported as training-set accuracy; otherwise
   * with the test labels, reported as held-out accuracy.
   */
  method EvaluateAccuracy(testIsEmpty: bool, trainTargets: array<int>, testTargets: array<int>, results: array<int>)
    returns (evaluated: EvaluationSet, nCorrect: nat)
    requires results.Length <= (if testIsEmpty then trainTargets else testTargets).Length
    ensures evaluated == if testIsEmpty then TrainingSet else HeldOutTrainingSet
    ensures nCorrect <= results.Length
    ensures nCorrect == Matches(results[..], (if testIsEmpty then trainTargets else testTargets)[..])
  {
    var reference := trainTargets;
    evaluated := HeldOutTrainingSet;
    if testIsEmpty {
      evaluated := TrainingSet;
    } else {
      reference := testTargets;
    }
    nCorrect := CountCorrect(results, reference);
  }

  /**
   * The percentage that PixelClassifierPane.doClassification logs
   * (PixelClassifierPane.java:836), as written: the correct count over
   * the number n of training samples, whatever set was evaluated. None
   * stands for the non-finite value of a division by zero.
   */
  function LoggedAccuracy(nCorrect: nat, n: nat): (pct: Option<real>)
    ensures pct.Some? <==> n > 0
  {
    if n == 0 then None else Some(nCorrect as real * 100.0 / n as real)
  }

  /**
   * With five held-out samples, all predicted correctly, and a training set
   * capped at two, the logged figure is 250 %.
   */
  lemma LoggedAccuracyExceedsHundred(heldOut: seq<int>)
    requires |heldOut| == 5
    ensures LoggedAccuracy(Matches(heldOut, heldOut), 2) == Some(250.0)
  {
    MatchesBounds(heldOut, heldOut);
  }

  /** The accuracy over the nTest evaluated samples, a percentage. */
  function Accuracy(nCorrect: nat, nTest: nat): (pct: Option<real>)
    requires nCorrect <= nTest
    ensures pct.Some? <==> nTest > 0
    ensures pct.Some? ==> 0.0 <= pct.value <= 100.0
    ensures pct.Some? ==> (pct.value == 100.0 <==> nCorrect == nTest)
    ensures pct.Some? ==> (pct.value == 0.0 <==> nCorrect == 0)
  {
    if nTest == 0 then None
    else
      var pct := nCorrect as real * 100.0 / nTest as real;
      assert pct * nTest as real == nCorrect as real * 100.0;
      Some(pct)
  }

  /** Accuracy of the counted predictions: within 0 to 100 %, and 100 % exactly when every prediction matches. */
  lemma AccuracyOfMatches(predicted: seq<int>, reference: seq<int>)
    requires 0 < |predicted| <= |reference|
    ensures Accuracy(Matches(predicted, reference), |predicted|) == Some(100.0) <==>
              forall i :: 0 <= i < |predicted| ==> predicted[i] == reference[i]
  {
    MatchesBounds(predicted, reference);
  }

  // ---------------------------------------------------------------------
  // Output channel type

  /** The output types the pane offers. */
  datatype ChannelType = Classification | Probability

  /** Lines 859-862: classification unless the model supports probabilities, then the selected type. */
  function OutputChannelType(supportsProbabilities: bool, selected: ChannelType): (r: ChannelType)
    ensures !supportsProbabilities ==> r == Classification
    ensures supportsProbabilities ==> r == selected
  {
    if supportsProbabilities then selected else Classification
  }

  /** Probability output is produced exactly when it is both supported and selected. */
  lemma ProbabilityOnlyWhenSupported(supportsProbabilities: bool, selected: ChannelType)
    ensures OutputChannelType(supportsProbabilities, selected) == Probability <==>
            supportsProbabilities && selected == Probability
  {
  }

  // ---------------------------------------------------------------------
  // Inverting the label map

  /** A label shared by two classes: the class it held before and the one that replaces it. */
  datatype DuplicateLabel = DuplicateLabel(index: int, previous: PathClass, latter: PathClass)

  /** The label-to-class map after putting every entry in order, the later entry replacing the earlier. */
  function Inverted(labels: seq<LabelEntry>): map<int, PathClass> {
    if labels == [] then map[]
    else
      var last := labels[|labels| - 1];
      Inverted(labels[..|labels| - 1])[last.1 := last.0]
  }

  /**
   * The warnings logged: one for each entry whose label is already in the
   * map with a non-null class (TreeMap.put returns null both for a new key
   * and for a key mapped to null, so the latter goes unreported).
   */
  function Duplicates(labels: seq<LabelEntry>): seq<DuplicateLabel> {
    if labels == [] then []
    else
      var prefix, last := labels[..|labels| - 1], labels[|labels| - 1];
      var before := Inverted(prefix);
      Duplicates(prefix) +
        if last.1 in before && before[last.1] != PathClassTools.Null then [DuplicateLabel(last.1, before[last.1], last.0)] else []
  }

  /** Lines 865-870: builds the label-to-class map with put, warning on every replaced entry. */
  method InvertLabels(labels: seq<LabelEntry>) returns (labels2: map<int, PathClass>, warnings: seq<DuplicateLabel>)
    ensures labels2 == Inverted(labels)
    ensures warnings == Duplicates(labels)
  {
    labels2, warnings := map[], [];
    var i := 0;
    while i < |labels|
      invariant 0 <= i <= |labels|
      invariant labels2 == Inverted(labels[..i])
      invariant warnings == Duplicates(labels[..i])
    {
      assert labels[..i + 1][..i] == labels[..i];
      var (pathClass, index) := labels[i];
      if index in labels2 && labels2[index] != PathClassTools.Null {
        warnings := warnings + [DuplicateLabel(index, labels2[index], pathClass)];
      }
      labels2 := labels2[index := pathClass];
      i := i + 1;
    }
    assert labels[..|labels|] == labels;
  }

  /** The labels of the inverted map are exactly the labels of the entries. */
  lemma {:induction false} InvertedKeys(labels: seq<LabelEntry>)
    ensures Inverted(labels).Keys == set i | 0 <= i < |labels| :: labels[i].1
  {
    if labels != [] {
      var prefix := labels[..|labels| - 1];
      InvertedKeys(prefix);
      assert forall i :: 0 <= i < |prefix| ==> prefix[i] == labels[i];
      assert (set i | 0 <= i < |labels| :: labels[i].1) ==
             (set i | 0 <= i < |prefix| :: prefix[i].1) + {labels[|labels| - 1].1};
    }
  }

  /** Last writer wins: a label maps to the class of the last entry holding it. */
  lemma {:induction false} InvertedLastWins(labels: seq<LabelEntry>, j: nat)
    requires j < |labels|
    requires forall k :: j < k < |labels| ==> labels[k].1 != labels[j].1
    ensures labels[j].1 in Inverted(labels) && Inverted(labels)[labels[j].1] == labels[j].0
  {
    if j < |labels| - 1 {
      var prefix := labels[..|labels| - 1];
      InvertedLastWins(prefix, j);
    }
  }

  /** No entry of the label map has the null class. */
  predicate NoNullClasses(labels: seq<LabelEntry>) {
    forall i :: 0 <= i < |labels| ==> labels[i].0 != PathClassTools.Null
  }

  /** Without null classes among the entries, no label of the inverted map holds null. */
  lemma {:induction false} InvertedNonNull(labels: seq<LabelEntry>)
    requires NoNullClasses(labels)
    ensures forall k :: k in Inverted(labels) ==> Inverted(labels)[k] != PathClassTools.Null
  {
    if labels != [] {
      var prefix := labels[..|labels| - 1];
      assert forall i :: 0 <= i < |prefix| ==> prefix[i] == labels[i];
      InvertedNonNull(prefix);
    }
  }

  /** Without null classes, every entry either adds a label to the map or is reported as a duplicate. */
  lemma {:induction false} DuplicatesCount(labels: seq<LabelEntry>)
    requires NoNullClasses(labels)
    ensures |Duplicates(labels)| + |Inverted(labels)| == |labels|
  {
    if labels != [] {
      var prefix := labels[..|labels| - 1];
      assert forall i :: 0 <= i < |prefix| ==> prefix[i] == labels[i];
      DuplicatesCount(prefix);
      InvertedNonNull(prefix);
    }
  }

  /** Without null classes, no warning is logged exactly when no two entries share a label. */
  lemma {:induction false} NoDuplicatesIffDistinctLabels(labels: seq<LabelEntry>)
    requires NoNullClasses(labels)
    ensures Duplicates(labels) == [] <==> forall i, j :: 0 <= i < j < |labels| ==> labels[i].1 != labels[j].1
  {
    if labels != [] {
      var prefix, last := labels[..|labels| - 1], labels[|labels| - 1];
      assert forall i :: 0 <= i < |prefix| ==> prefix[i] == labels[i];
      NoDuplicatesIffDistinctLabels(prefix);
      InvertedKeys(prefix);
      InvertedNonNull(prefix);
      if last.1 in Inverted(prefix) {
        var i :| 0 <= i < |prefix| && prefix[i].1 == last.1;
        assert labels[i].1 == labels[|labels| - 1].1;
      }
    }
  }

  /** A label first held by the null class is replaced without a warning. */
  lemma NullClassHidesDuplicate(pathClass: PathClass, index: int)
    ensures Duplicates([(PathClassTools.Null, index), (pathClass, index)]) == []
    ensures Inverted([(PathClassTools.Null, index), (pathClass, index)]) == map[index := pathClass]
  {
    var labels := [(PathClassTools.Null, index), (pathClass, index)];
    assert labels[..1] == [(PathClassTools.Null, index)];
    assert labels[..1][..0] == [];
    assert Inverted(labels[..1]) == map[index := PathClassTools.Null];
    assert Duplicates(labels[..1]) == [];
  }

  // ---------------------------------------------------------------------
  // Ranking feature importance

  /** Feature a is listed before feature b: higher importance first, ties by index. */
  predicate RanksBefore(importance: seq<real>, a: int, b: int)
    requires 0 <= a < |importance| && 0 <= b < |importance|
  {
    importance[a] > importance[b] || (importance[a] == importance[b] && a < b)
  }

  predicate IsRanked(importance: seq<real>, ranking: seq<nat>)
  {
    && (forall i :: 0 <= i < |ranking| ==> ranking[i] < |importance|)
    && (forall i, j :: 0 <= i < j < |ranking| ==> RanksBefore(importance, ranking[i], ranking[j]))
  }

  /** Inserts feature x before the first feature it ranks before. */
  function InsertRanked(importance: seq<real>, x: nat, ranking: seq<nat>): (r: seq<nat>)
    requires x < |importance|
    requires forall i :: 0 <= i < |ranking| ==> ranking[i] < |importance|
    ensures |r| == |ranking| + 1
    ensures multiset(r) == multiset(ranking) + multiset{x}
    ensures forall i :: 0 <= i < |r| ==> r[i] < |importance|
  {
    if ranking == [] then [x]
    else if RanksBefore(importance, x, ranking[0]) then [x] + ranking
    else
      assert ranking == [ranking[0]] + ranking[1..];
      [ranking[0]] + InsertRanked(importance, x, ranking[1..])
  }

  /** The indices 0 .. n - 1, sorted by RanksBefore. */
  function RankFirst(importance: seq<real>, n: nat): (r: seq<nat>)
    requires n <= |importance|
    ensures |r| == n
    ensures multiset(r) == multiset(Indices(n))
    ensures forall i :: 0 <= i < |r| ==> r[i] < n
  {
    if n == 0 then []
    else
      var r := InsertRanked(importance, n - 1, RankFirst(importance, n - 1));
      assert Indices(n) == Indices(n - 1) + [n - 1];
      PermutationOfIndicesBelow(r, n);
      r
  }

  /** A permutation of the indices 0 .. n - 1 holds only indices below n. */
  lemma PermutationOfIndicesBelow(r: seq<nat>, n: nat)
    requires multiset(r) == multiset(Indices(n))
    ensures forall i :: 0 <= i < |r| ==> r[i] < n
  {
    forall i | 0 <= i < |r|
      ensures r[i] < n
    {
      assert r[i] in multiset(Indices(n));
      var k :| 0 <= k < n && Indices(n)[k] == r[i];
    }
  }

  function Indices(n: nat): (r: seq<nat>)
    ensures |r| == n && forall i :: 0 <= i < n ==> r[i] == i
  {
    seq(n, i => i)
  }

  /** The stream sort of PixelClassifierPane.logVariableImportance (PixelClassifierPane.java:907-910): the feature indices ordered by decreasing importance. */
  function Ranking(importance: seq<real>): seq<nat> {
    RankFirst(importance, |importance|)
  }

  /** The inserted ranking holds x and the features of the old one, and nothing else. */
  lemma InsertRankedMembers(importance: seq<real>, x: nat, ranking: seq<nat>)
    requires x < |importance|
    requires forall i :: 0 <= i < |ranking| ==> ranking[i] < |importance|
    ensures forall y :: y in InsertRanked(importance, x, ranking) <==> y == x || y in ranking
  {
    var r := InsertRanked(importance, x, ranking);
    forall y
      ensures y in r <==> y == x || y in ranking
    {
      assert y in r <==> y in multiset(r);
      assert y in ranking <==> y in multiset(ranking);
    }
  }

  /** A feature that ranks before every feature of a ranked list can go in front of it. */
  lemma ConsRanked(importance: seq<real>, y: nat, rest: seq<nat>)
    requires y < |importance| && IsRanked(importance, rest)
    requires forall j :: 0 <= j < |rest| ==> RanksBefore(importance, y, rest[j])
    ensures IsRanked(importance, [y] + rest)
  {
    var r := [y] + rest;
    assert forall i :: 0 < i < |r| ==> r[i] == rest[i - 1];
  }

  /** The tail of a ranked list is ranked. */
  lemma TailRanked(importance: seq<real>, ranking: seq<nat>)
    requires ranking != [] && IsRanked(importance, ranking)
    ensures IsRanked(importance, ranking[1..])
  {
    assert forall i :: 0 <= i < |ranking| - 1 ==> ranking[1..][i] == ranking[i + 1];
  }

  lemma {:induction false} InsertRankedSorted(importance: seq<real>, x: nat, ranking: seq<nat>)
    requires x < |importance| && IsRanked(importance, ranking)
    requires x !in ranking
    ensures IsRanked(importance, InsertRanked(importance, x, ranking))
  {
    if ranking == [] {
    } else if RanksBefore(importance, x, ranking[0]) {
      forall j | 0 <= j < |ranking|
        ensures RanksBefore(importance, x, ranking[j])
      {
        if j > 0 {
          assert RanksBefore(importance, ranking[0], ranking[j]);
        }
      }
      ConsRanked(importance, x, ranking);
    } else {
      var tail := ranking[1..];
      TailRanked(importance, ranking);
      assert x !in tail;
      InsertRankedSorted(importance, x, tail);
      var rest := InsertRanked(importance, x, tail);
      InsertRankedMembers(importance, x, tail);
      forall j | 0 <= j < |rest|
        ensures RanksBefore(importance, ranking[0], rest[j])
      {
        assert rest[j] in rest;
        if rest[j] != x {
          var k :| 0 <= k < |tail| && tail[k] == rest[j];
          assert ranking[k + 1] == rest[j];
        }
      }
      ConsRanked(importance, ranking[0], rest);
    }
  }

  /** Inserting feature n - 1 into a ranked RankFirst(n - 1) keeps it ranked. */
  lemma RankFirstStep(importance: seq<real>, n: nat)
    requires 0 < n <= |importance| && IsRanked(importance, RankFirst(importance, n - 1))
    ensures IsRanked(importance, RankFirst(importance, n))
  {
    var prev: seq<nat> := RankFirst(importance, n - 1);
    assert forall i :: 0 <= i < |prev| ==> prev[i] < n - 1;
    assert n - 1 !in prev;
    InsertRankedSorted(importance, n - 1, prev);
  }

  lemma {:induction false} RankFirstSorted(importance: seq<real>, n: nat)
    requires n <= |importance|
    ensures IsRanked(importance, RankFirst(importance, n))
  {
    if n > 0 {
      RankFirstSorted(importance, n - 1);
      RankFirstStep(importance, n);
    }
  }

  /**
   * The ranking is a permutation of the feature indices, ordered by
   * non-increasing importance, equal importances in ascending index order
   * (Java's stable sort of the indices in ascending order).
   */
  lemma RankingSpec(importance: seq<real>)
    ensures |Ranking(importance)| == |importance|
    ensures forall k :: 0 <= k < |importance| ==> k in Ranking(importance)
    ensures forall i, j :: 0 <= i < j < |importance| ==>
              Ranking(importance)[i] != Ranking(importance)[j]
    ensures forall i, j :: 0 <= i < j < |importance| ==>
              importance[Ranking(importance)[i]] >= importance[Ranking(importance)[j]]
    ensures forall i, j :: (0 <= i < j < |importance| &&
              importance[Ranking(importance)[i]] == importance[Ranking(importance)[j]]) ==>
              Ranking(importance)[i] < Ranking(importance)[j]
  {
    var r := Ranking(importance);
    RankFirstSorted(importance, |importance|);
    forall k | 0 <= k < |importance|
      ensures k in r
    {
      assert Indices(|importance|)[k] == k;
      assert k in multiset(Indices(|importance|));
    }
  }

  /**
   * logVariableImportance: None (the method returns false) when there is no
   * importance or its length differs from the number of features; otherwise
   * the lines logged, one per feature in ranked order, each pairing the
   * importance with the feature's name.
   */
  function LogVariableImportance(importance: Option<seq<real>>, features: seq<string>): (lines: Option<seq<(real, string)>>)
    ensures lines.Some? <==> importance.Some? && |importance.value| == |features|
    ensures lines.Some? ==> |lines.value| == |features|
    ensures lines.Some? ==> forall k :: 0 <= k < |features| ==>
              Ranking(importance.value)[k] < |features| &&
              lines.value[k] == (importance.value[Ranking(importance.value)[k]], features[Ranking(importance.value)[k]])
  {
    match importance
    case None => None
    case Some(values) =>
      var sorted := Ranking(values);
      if |sorted| != |features| then None
      else Some(seq(|sorted|, k requires 0 <= k < |sorted| => (values[sorted[k]], features[sorted[k]])))
  }
}
