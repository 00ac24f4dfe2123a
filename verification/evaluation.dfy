/**
 Testing and accuracy of the Evolution2 and Evolution classifiers: counting
 the test documents classified into their own class, the accuracy
 `Σ successes / ceil(0.2 * N)` over all N loaded documents, the 80/20
 `division` and the five-fold `crossValidation`.
 */
module Evaluation {
  import opened Basics
  import opened Folds
  import opened Documents
  import opened DataSets
  import opened Partition
  import opened Training
  import opened Classifier

  /** How many elements of `xs` equal `x`, counted left to right. */
  function Count<T(==)>(xs: seq<T>, x: T): (k: nat)
    ensures k <= |xs|
    ensures k == |xs| <==> forall i :: 0 <= i < |xs| ==> xs[i] == x
    ensures k == 0 <==> forall i :: 0 <= i < |xs| ==> xs[i] != x
    ensures k == multiset(xs)[x]
    decreases |xs|
  {
    if xs == [] then 0
    else
      var n := |xs| - 1;
      var prefix := xs[..n];
      assert forall i :: 0 <= i < n ==> prefix[i] == xs[i];
      assert xs == prefix + [xs[n]];
      Count(prefix, x) + (if xs[n] == x then 1 else 0)
  }

  /** The answer of `classify` for each document, in order. */
  ghost function Outcomes(classes: seq<string>, tables: map<string, map<string, real>>, docs: seq<Document>)
    : (r: seq<Option<string>>)
    requires forall i :: 0 <= i < |classes| ==> classes[i] in tables
    ensures |r| == |docs|
    ensures forall i :: 0 <= i < |docs| ==> r[i] == Classify(classes, tables, docs[i].wordsCount)
  {
    seq(|docs|, i requires 0 <= i < |docs| => Classify(classes, tables, docs[i].wordsCount))
  }

  /** The number of documents of `docs` that `classify` assigns to class `c`. */
  ghost function Successes(classes: seq<string>, tables: map<string, map<string, real>>, c: string, docs: seq<Document>)
    : (k: nat)
    requires forall i :: 0 <= i < |classes| ==> classes[i] in tables
    ensures k == multiset(Outcomes(classes, tables, docs))[Some(c)]
    ensures k <= |docs|
    ensures k == |docs| <==> forall i :: 0 <= i < |docs| ==> Outcomes(classes, tables, docs)[i] == Some(c)
  {
    Count(Outcomes(classes, tables, docs), Some(c))
  }

  /**
   `test` of Evolution2 (and of Evolution, given the test parts): for each
   class, `testSuccess[className]` is reset and counts the class's test
   documents classified into it.
   */
  ghost function Test(classes: seq<string>, tables: map<string, map<string, real>>, testData: map<string, seq<Document>>)
    : (success: map<string, nat>)
    requires forall i :: 0 <= i < |classes| ==> classes[i] in tables && classes[i] in testData
    ensures forall c :: c in success <==> c in classes
    ensures forall c :: c in success ==> success[c] <= |testData[c]|
    ensures forall c :: c in success ==>
              (success[c] == |testData[c]| <==> forall i :: 0 <= i < |testData[c]| ==>
                 Outcomes(classes, tables, testData[c])[i] == Some(c))
    ensures forall c :: c in success ==> success[c] == multiset(Outcomes(classes, tables, testData[c]))[Some(c)]
  {
    map c | c in classes :: Successes(classes, tables, c, testData[c])
  }

  /** `len(v)` for each class's list. */
  function Sizes(data: map<string, seq<Document>>): (sizes: map<string, nat>)
    ensures sizes.Keys == data.Keys
  {
    map c | c in data :: |data[c]|
  }

  /** `sum(len(v) for v in self.data.values())`. */
  ghost function TotalDocuments(data: map<string, seq<Document>>): nat
  {
    SumNat(Sizes(data))
  }

  /**
   `evaluate(0.2)`: the successes over `ceil(0.2 * N)`; `None` where Python
   divides by zero, that is when no document is loaded.
   */
  ghost function Evaluate(success: map<string, nat>, total: nat): (r: Option<real>)
    ensures r.None? <==> total == 0
    ensures r.Some? ==> r.value >= 0.0
  {
    if total == 0 then None else Some(SumNat(success) as real / CeilFifth(total) as real)
  }

  lemma DivideThenMultiply(a: nat, b: nat)
    requires b > 0
    ensures (a as real / b as real) * b as real == a as real
  {
  }

  /** The accuracy is at most 1 exactly when the successes fit in the denominator. */
  lemma EvaluateAtMostOne(success: map<string, nat>, total: nat)
    requires total > 0
    ensures Evaluate(success, total).value <= 1.0 <==> SumNat(success) <= CeilFifth(total)
  {
    FractionAtMostOne(SumNat(success), CeilFifth(total));
  }

  lemma FractionAtMostOne(a: nat, b: nat)
    requires b > 0
    ensures a as real / b as real <= 1.0 <==> a <= b
  {
    if a as real / b as real <= 1.0 {
      assert a as real <= b as real by {
        DivideThenMultiply(a, b);
        assert (a as real / b as real) * b as real <= 1.0 * b as real;
      }
    }
  }

  /** Every listed class has loaded documents; Python raises `KeyError` otherwise. */
  ghost predicate HasClasses(ds: DataSet)
  {
    forall i :: 0 <= i < |ds.classes| ==> ds.classes[i] in ds.data
  }

  /** The first `round(0.8 * n)` documents of each class. */
  function HoldoutTrain(ds: DataSet): (train: map<string, seq<DataFile>>)
    requires HasClasses(ds)
    ensures forall c :: c in train <==> c in ds.classes
    ensures forall c :: c in train ==> train[c] == ds.data[c][..RoundFourFifths(|ds.data[c]|)]
  {
    map c | c in ds.classes :: Head(ds.data[c], RoundFourFifths(|ds.data[c]|))
  }

  /** The remaining documents of each class. */
  function HoldoutTest(ds: DataSet): (test: map<string, seq<DataFile>>)
    requires HasClasses(ds)
    ensures forall c :: c in test <==> c in ds.classes
    ensures forall c :: c in test ==> test[c] == ds.data[c][RoundFourFifths(|ds.data[c]|)..]
  {
    map c | c in ds.classes :: Tail(ds.data[c], RoundFourFifths(|ds.data[c]|))
  }

  /** A part of a class's documents is covered by the inventory that covers the class. */
  lemma ConsistentCovers(ds: DataSet, c: string, part: seq<DataFile>)
    requires Consistent(ds) && c in ds.data
    requires forall i :: 0 <= i < |part| ==> part[i] in ds.data[c]
    ensures Covers(ds.inventory, part)
  {
    forall i, w | 0 <= i < |part| && w in part[i].words
      ensures w in ds.inventory
    {
      var j :| 0 <= j < |ds.data[c]| && ds.data[c][j] == part[i];
    }
  }

  /**
   Evolution2's `division`: train on the first 80% of each class over the
   loaded inventory, test on the rest, evaluate.  `None` where Python
   raises: a class without documents, or no documents at all.
   */
  ghost function Division(ds: DataSet): (r: Option<real>)
    requires Consistent(ds)
    ensures r.None? <==> !HasClasses(ds) || TotalDocuments(ds.data) == 0
  {
    if !HasClasses(ds) then None
    else
      HoldoutCovered(ds);
      Evaluate(HoldoutSuccess(ds), TotalDocuments(ds.data))
  }

  lemma HoldoutCovered(ds: DataSet)
    requires Consistent(ds) && HasClasses(ds)
    ensures forall c :: c in HoldoutTrain(ds) ==> Covers(ds.inventory, HoldoutTrain(ds)[c])
  {
    var train := HoldoutTrain(ds);
    forall c | c in train
      ensures Covers(ds.inventory, train[c])
    {
      ConsistentCovers(ds, c, train[c]);
    }
  }

  /** `testSuccess` after `division` has trained and tested. */
  ghost function HoldoutSuccess(ds: DataSet): (success: map<string, nat>)
    requires Consistent(ds) && HasClasses(ds)
    ensures forall c :: c in success <==> c in ds.classes
    ensures forall c :: c in success ==> success[c] <= |ds.data[c]| - RoundFourFifths(|ds.data[c]|)
  {
    HoldoutCovered(ds);
    var tables := Train(ds.classes, ds.inventory, HoldoutTrain(ds));
    Test(ds.classes, tables, HoldoutTest(ds))
  }

  /**
   With two distinct classes, as every version loads them, the holdout
   accuracy is at most 1: the test parts hold at most `ceil(0.2 * N)`
   documents.
   */
  lemma DivisionAtMostOne(ds: DataSet)
    requires Consistent(ds)
    requires |ds.classes| == 2 && ds.classes[0] != ds.classes[1]
    requires forall c :: c in ds.data ==> c in ds.classes
    ensures Division(ds).Some? ==> Division(ds).value <= 1.0
  {
    if Division(ds).Some? {
      HoldoutSuccessBound(ds);
      EvaluateAtMostOne(HoldoutSuccess(ds), TotalDocuments(ds.data));
    }
  }

  lemma HoldoutSuccessBound(ds: DataSet)
    requires Consistent(ds) && HasClasses(ds)
    requires |ds.classes| == 2 && ds.classes[0] != ds.classes[1]
    requires forall c :: c in ds.data ==> c in ds.classes
    ensures SumNat(HoldoutSuccess(ds)) <= CeilFifth(TotalDocuments(ds.data))
  {
    TwoClassSuccessBound(HoldoutSuccess(ds), ds.data, ds.classes);
  }

  lemma TwoClassSuccessBound(success: map<string, nat>, data: map<string, seq<Document>>, classes: seq<string>)
    requires |classes| == 2 && classes[0] != classes[1] && classes[0] in data && classes[1] in data
    requires forall c :: c in data ==> c in classes
    requires forall c :: c in success <==> c in classes
    requires forall c :: c in success ==> success[c] <= |data[c]| - RoundFourFifths(|data[c]|)
    ensures SumNat(success) <= CeilFifth(TotalDocuments(data))
  {
    var a, b := classes[0], classes[1];
    SumTwo(success, a, b);
    TwoClassTotal(data, a, b);
    HoldoutTestsWithinDenominator(|data[a]|, |data[b]|);
  }

  lemma TwoClassTotal(data: map<string, seq<Document>>, a: string, b: string)
    requires a != b && a in data && b in data
    requires forall c :: c in data ==> c == a || c == b
    ensures TotalDocuments(data) == |data[a]| + |data[b]|
  {
    SumTwo(Sizes(data), a, b);
  }

  /** The same for a data set as `DataSet.__init__` loads it. */
  lemma LoadedDivisionAtMostOne(files: seq<DataFile>)
    ensures var ds := LoadDataSet(Classes, files);
            Consistent(ds) && (Division(ds).Some? ==> Division(ds).value <= 1.0)
  {
    LoadedConsistent(Classes, files);
    DivisionAtMostOne(LoadDataSet(Classes, files));
  }

  /** Fold i's training part of each class. */
  function FoldTrainData(ds: DataSet, i: nat): (train: map<string, seq<DataFile>>)
    requires HasClasses(ds) && i < Parts
    ensures forall c :: c in train <==> c in ds.classes
    ensures forall c :: c in train ==> train[c] == FoldTrain(ds.data[c], i)
  {
    map c | c in ds.classes :: FoldTrain(ds.data[c], i)
  }

  /** Fold i's test window of each class. */
  function FoldTestData(ds: DataSet, i: nat): (test: map<string, seq<DataFile>>)
    requires HasClasses(ds) && i < Parts
    ensures forall c :: c in test <==> c in ds.classes
    ensures forall c :: c in test ==> test[c] == FoldTest(ds.data[c], i)
  {
    map c | c in ds.classes :: FoldTest(ds.data[c], i)
  }

  lemma FoldCovered(ds: DataSet, i: nat)
    requires Consistent(ds) && HasClasses(ds) && i < Parts
    ensures forall c :: c in FoldTrainData(ds, i) ==> Covers(ds.inventory, FoldTrainData(ds, i)[c])
  {
    var train := FoldTrainData(ds, i);
    forall c | c in train
      ensures Covers(ds.inventory, train[c])
    {
      var docs := ds.data[c];
      FoldTrainIsComplement(docs, i);
      FoldBoundsMonotone(|docs|);
      ConsistentCovers(ds, c, train[c]);
    }
  }

  /** `testSuccess` after fold i has trained and tested. */
  ghost function FoldSuccess(ds: DataSet, i: nat): (success: map<string, nat>)
    requires Consistent(ds) && HasClasses(ds) && i < Parts
    ensures forall c :: c in success <==> c in ds.classes
    ensures forall c :: c in success ==> success[c] <= |FoldTest(ds.data[c], i)|
  {
    FoldCovered(ds, i);
    var tables := Train(ds.classes, ds.inventory, FoldTrainData(ds, i));
    Test(ds.classes, tables, FoldTestData(ds, i))
  }

  /** `result += evaluate(0.2) / n` over the fold success counts, in fold order. */
  function FoldMean(counts: seq<nat>, denominator: nat): (r: real)
    requires denominator > 0
    ensures r == Total(counts) as real / (Parts * denominator) as real
    decreases |counts|
  {
    if counts == [] then 0.0
    else
      var n := |counts| - 1;
      var acc := FoldMean(counts[..n], denominator);
      AddFifth(acc, Total(counts[..n]), counts[n], denominator);
      acc + (counts[n] as real / denominator as real) / Parts as real
  }

  /** `Σ counts`. */
  function Total(counts: seq<nat>): nat
  {
    if counts == [] then 0 else Total(counts[..|counts| - 1]) + counts[|counts| - 1]
  }

  lemma AddFifth(acc: real, a: nat, x: nat, d: nat)
    requires d > 0 && acc == a as real / (Parts * d) as real
    ensures acc + (x as real / d as real) / Parts as real == (a + x) as real / (Parts * d) as real
  {
    var f := (Parts * d) as real;
    DivideTwice(x as real, d as real, Parts as real);
    assert (x as real / d as real) / Parts as real == x as real / f;
    assert a as real / f + x as real / f == (a as real + x as real) / f;
  }

  lemma DivideTwice(x: real, d: real, p: real)
    requires d > 0.0 && p > 0.0
    ensures (x / d) / p == x / (d * p)
  {
  }

  /** The success counts of the five folds. */
  ghost function FoldCounts(ds: DataSet): (counts: seq<nat>)
    requires Consistent(ds) && HasClasses(ds)
    ensures |counts| == Parts
  {
    [SumNat(FoldSuccess(ds, 0)), SumNat(FoldSuccess(ds, 1)), SumNat(FoldSuccess(ds, 2)),
     SumNat(FoldSuccess(ds, 3)), SumNat(FoldSuccess(ds, 4))]
  }

  /**
   Evolution2's `crossValidation`: the mean of the five fold accuracies,
   each over `ceil(0.2 * N)`.  `None` where Python raises.
   */
  ghost function CrossValidation(ds: DataSet): (r: Option<real>)
    requires Consistent(ds)
    ensures r.None? <==> !HasClasses(ds) || TotalDocuments(ds.data) == 0
  {
    var total := TotalDocuments(ds.data);
    if !HasClasses(ds) || total == 0 then None
    else Some(FoldMean(FoldCounts(ds), CeilFifth(total)))
  }

  /** The number of fold-i test documents over the listed classes. */
  function TestCount(data: map<string, seq<Document>>, classes: seq<string>, i: nat): nat
    requires i < Parts
    requires forall j :: 0 <= j < |classes| ==> classes[j] in data
  {
    if classes == [] then 0
    else
      var n := |classes| - 1;
      TestCount(data, classes[..n], i) + |FoldTest(data[classes[n]], i)|
  }

  /** The number of documents over the listed classes. */
  function DocCount(data: map<string, seq<Document>>, classes: seq<string>): nat
    requires forall j :: 0 <= j < |classes| ==> classes[j] in data
  {
    if classes == [] then 0
    else
      var n := |classes| - 1;
      DocCount(data, classes[..n]) + |data[classes[n]]|
  }

  /** Over the five folds every document of every class is tested once. */
  lemma {:induction false} FoldCountsCover(data: map<string, seq<Document>>, classes: seq<string>)
    requires forall j :: 0 <= j < |classes| ==> classes[j] in data
    ensures TestCount(data, classes, 0) + TestCount(data, classes, 1) + TestCount(data, classes, 2)
          + TestCount(data, classes, 3) + TestCount(data, classes, 4) == DocCount(data, classes)
    decreases |classes|
  {
    if classes != [] {
      var n := |classes| - 1;
      FoldCountsCover(data, classes[..n]);
      FoldTestSizes(|data[classes[n]]|);
    }
  }

  lemma {:induction false} DocCountAlong(data: map<string, seq<Document>>, classes: seq<string>)
    requires forall j :: 0 <= j < |classes| ==> classes[j] in data
    ensures DocCount(data, classes) == SumAlong(Sizes(data), classes)
    decreases |classes|
  {
    if classes != [] {
      DocCountAlong(data, classes[..|classes| - 1]);
    }
  }

  lemma {:induction false} SumAlongWithin(success: map<string, nat>, data: map<string, seq<Document>>,
                                          classes: seq<string>, i: nat)
    requires i < Parts
    requires forall j :: 0 <= j < |classes| ==> classes[j] in data && classes[j] in success
    requires forall j :: 0 <= j < |classes| ==> success[classes[j]] <= |FoldTest(data[classes[j]], i)|
    ensures SumAlong(success, classes) <= TestCount(data, classes, i)
    decreases |classes|
  {
    if classes != [] {
      SumAlongWithin(success, data, classes[..|classes| - 1], i);
    }
  }

  /** Over distinct classes, a fold's successes are at most its test documents. */
  lemma FoldSuccessWithin(success: map<string, nat>, data: map<string, seq<Document>>, classes: seq<string>, i: nat)
    requires i < Parts && Distinct(classes)
    requires forall j :: 0 <= j < |classes| ==> classes[j] in data
    requires forall c :: c in success <==> c in classes
    requires forall c :: c in success ==> success[c] <= |FoldTest(data[c], i)|
    ensures SumNat(success) <= TestCount(data, classes, i)
  {
    SumNatAlong(success, classes);
    SumAlongWithin(success, data, classes, i);
  }

  /** Over distinct classes holding every loaded class, the documents counted are all documents. */
  lemma DocCountIsTotal(data: map<string, seq<Document>>, classes: seq<string>)
    requires Distinct(classes)
    requires forall j :: 0 <= j < |classes| ==> classes[j] in data
    requires forall c :: c in data ==> c in classes
    ensures DocCount(data, classes) == TotalDocuments(data)
  {
    SumNatAlong(Sizes(data), classes);
    DocCountAlong(data, classes);
  }

  lemma TotalFive(a: nat, b: nat, c: nat, d: nat, e: nat)
    ensures Total([a, b, c, d, e]) == a + b + c + d + e
  {
    assert [a][..0] == [];
    assert Total([a]) == a;
    assert [a, b][..1] == [a];
    assert Total([a, b]) == a + b;
    assert [a, b, c][..2] == [a, b];
    assert Total([a, b, c]) == a + b + c;
    assert [a, b, c, d][..3] == [a, b, c];
    assert Total([a, b, c, d]) == a + b + c + d;
    assert [a, b, c, d, e][..4] == [a, b, c, d];
  }

  /** The five folds together succeed at most once per loaded document. */
  lemma FoldCountsWithin(ds: DataSet)
    requires Consistent(ds) && HasClasses(ds) && Distinct(ds.classes)
    requires forall c :: c in ds.data ==> c in ds.classes
    ensures Total(FoldCounts(ds)) <= TotalDocuments(ds.data)
  {
    var counts := FoldCounts(ds);
    FoldCountWithin(ds, 0);
    FoldCountWithin(ds, 1);
    FoldCountWithin(ds, 2);
    FoldCountWithin(ds, 3);
    FoldCountWithin(ds, 4);
    FoldCountsCover(ds.data, ds.classes);
    DocCountIsTotal(ds.data, ds.classes);
    TotalFive(counts[0], counts[1], counts[2], counts[3], counts[4]);
  }

  /** Fold `i` succeeds at most once per document it tests. */
  lemma FoldCountWithin(ds: DataSet, i: nat)
    requires Consistent(ds) && HasClasses(ds) && Distinct(ds.classes) && i < Parts
    ensures SumNat(FoldSuccess(ds, i)) <= TestCount(ds.data, ds.classes, i)
  {
    FoldSuccessWithin(FoldSuccess(ds, i), ds.data, ds.classes, i);
  }

  /**
   Over distinct classes the cross-validation accuracy is at most 1, for
   any number of classes, although a single fold's accuracy can exceed 1.
   */
  lemma CrossValidationAtMostOne(ds: DataSet)
    requires Consistent(ds) && Distinct(ds.classes)
    requires forall c :: c in ds.data ==> c in ds.classes
    ensures CrossValidation(ds).Some? ==> CrossValidation(ds).value <= 1.0
  {
    if CrossValidation(ds).Some? {
      var total := TotalDocuments(ds.data);
      var counts := FoldCounts(ds);
      FoldCountsWithin(ds);
      FoldMeanAtMostOne(counts, CeilFifth(total), total);
    }
  }

  /** Counts totalling no more than five times the denominator average at most 1. */
  lemma FoldMeanAtMostOne(counts: seq<nat>, denominator: nat, total: nat)
    requires denominator > 0 && Total(counts) <= total <= Parts * denominator
    ensures FoldMean(counts, denominator) <= 1.0
  {
    FractionAtMostOne(Total(counts), Parts * denominator);
  }

  /** The same for a data set as `DataSet.__init__` loads it. */
  lemma LoadedCrossValidationAtMostOne(files: seq<DataFile>)
    ensures var ds := LoadDataSet(Classes, files);
            Consistent(ds) && (CrossValidation(ds).Some? ==> CrossValidation(ds).value <= 1.0)
  {
    LoadedConsistent(Classes, files);
    CrossValidationAtMostOne(LoadDataSet(Classes, files));
  }

  /** Evolution's test parts: each class's documents from `int(0.8 * n)` on. */
  function FloorTest(ds: DataSet): (test: map<string, seq<DataFile>>)
    requires HasClasses(ds)
    ensures forall c :: c in test <==> c in ds.classes
    ensures forall c :: c in test ==> test[c] == ds.data[c][FloorFourFifths(|ds.data[c]|)..]
  {
    map c | c in ds.classes :: ds.data[c][FloorFourFifths(|ds.data[c]|)..]
  }

  /** `testSuccess` after Evolution's `train(tab)` and `test(tab)`; `tab` is ignored by both. */
  ghost function EvolutionSuccess(ds: DataSet): (success: map<string, nat>)
    requires HasClasses(ds)
    ensures forall c :: c in success <==> c in ds.classes
    ensures forall c :: c in success ==> success[c] <= CeilFifth(|ds.data[c]|)
  {
    var tables := CalculateProbability(ds.classes, ds.data);
    var success := Test(ds.classes, tables, FloorTest(ds));
    assert forall c :: c in success ==> success[c] <= CeilFifth(|ds.data[c]|) by {
      forall c | c in success
        ensures success[c] <= CeilFifth(|ds.data[c]|)
      {
        FloorTestsNearDenominator(|ds.data[c]|, 0);
      }
    }
    success
  }

  /**
   Evolution: train on the first `int(0.8 * n)` documents of each class over
   the vocabulary of all loaded documents, test on the rest, and evaluate
   over `ceil(0.2 * N)`.  `None` where Python raises.
   */
  ghost function EvolutionRun(ds: DataSet): (r: Option<real>)
    ensures r.None? <==> !HasClasses(ds) || TotalDocuments(ds.data) == 0
  {
    if !HasClasses(ds) then None else Evaluate(EvolutionSuccess(ds), TotalDocuments(ds.data))
  }

  /**
   With two classes the Evolution successes exceed the denominator by at
   most one (and `FloorTestsCanExceedDenominator` shows the test parts can).
   */
  lemma EvolutionSuccessBound(ds: DataSet)
    requires HasClasses(ds)
    requires |ds.classes| == 2 && ds.classes[0] != ds.classes[1]
    requires forall c :: c in ds.data ==> c in ds.classes
    ensures SumNat(EvolutionSuccess(ds)) <= CeilFifth(TotalDocuments(ds.data)) + 1
  {
    TwoClassFloorBound(EvolutionSuccess(ds), ds.data, ds.classes);
  }

  lemma TwoClassFloorBound(success: map<string, nat>, data: map<string, seq<Document>>, classes: seq<string>)
    requires |classes| == 2 && classes[0] != classes[1] && classes[0] in data && classes[1] in data
    requires forall c :: c in data ==> c in classes
    requires forall c :: c in success <==> c in classes
    requires forall c :: c in success ==> success[c] <= CeilFifth(|data[c]|)
    ensures SumNat(success) <= CeilFifth(TotalDocuments(data)) + 1
  {
    var a, b := classes[0], classes[1];
    SumTwo(success, a, b);
    TwoClassTotal(data, a, b);
    FloorTestsNearDenominator(|data[a]|, |data[b]|);
    FloorTestsNearDenominator(|data[b]|, |data[a]|);
  }
}
