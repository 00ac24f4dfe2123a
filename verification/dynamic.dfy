/**
 Testing and accuracy of the DynamicPair and Dynamic classifiers.  Both keep
 `testSuccess` across calls instead of resetting it and divide by the number
 of all loaded documents; DynamicPair tests the last 20% of each class,
 Dynamic every document, comparing its answer (a likelihood) with the class
 index.
 */
module DynamicEvaluation {
  import opened Basics
  import opened Folds
  import opened Documents
  import opened DataSets
  import opened Partition
  import opened Training
  import opened Classifier
  import opened Evaluation

  /**
   `testSuccess[className] += 1`, falling back to `= 1` on `KeyError`,
   repeated `k` times: nothing happens unless the class succeeds at least once.
   */
  function Credit(success: map<string, nat>, c: string, k: nat): (r: map<string, nat>)
    ensures forall x :: x in r <==> x in success || (k > 0 && x == c)
    ensures forall x :: x in r && x != c ==> r[x] == success[x]
    ensures c in r ==> r[c] == (if c in success then success[c] else 0) + k
  {
    if k == 0 then success else success[c := (if c in success then success[c] else 0) + k]
  }

  /** Crediting `k` successes adds `k` to the total. */
  lemma CreditSum(success: map<string, nat>, c: string, k: nat)
    ensures SumNat(Credit(success, c, k)) == SumNat(success) + k
  {
    if k > 0 {
      var before := if c in success then success[c] else 0;
      assert Credit(success, c, k) == success[c := before + k];
      SumNatUpdate(success, c, before + k);
    }
  }

  /**
   DynamicPair's `test` over the classes of `order` in turn, classifying
   with all of `classes`; `success` is the `testSuccess` left by earlier calls.
   */
  ghost function TestPairOver(classes: seq<string>, tables: map<string, map<string, real>>,
                              test: map<string, seq<Document>>, success: map<string, nat>, order: seq<string>)
    : (r: map<string, nat>)
    requires forall i :: 0 <= i < |classes| ==> classes[i] in tables
    requires forall i :: 0 <= i < |order| ==> order[i] in test
    ensures forall c :: c in success ==> c in r && success[c] <= r[c]
    ensures forall c :: c in r ==> c in success || c in order
    decreases |order|
  {
    if order == [] then success
    else
      var n := |order| - 1;
      var c := order[n];
      Credit(TestPairOver(classes, tables, test, success, order[..n]), c, Successes(classes, tables, c, test[c]))
  }

  /** The successes of the classes of `order`, each counted once per listing. */
  ghost function SuccessesAlong(classes: seq<string>, tables: map<string, map<string, real>>,
                                test: map<string, seq<Document>>, order: seq<string>): nat
    requires forall i :: 0 <= i < |classes| ==> classes[i] in tables
    requires forall i :: 0 <= i < |order| ==> order[i] in test
    decreases |order|
  {
    if order == [] then 0
    else
      var n := |order| - 1;
      SuccessesAlong(classes, tables, test, order[..n]) + Successes(classes, tables, order[n], test[order[n]])
  }

  /** Each call adds its successes to the running total. */
  lemma {:induction false} TestPairSum(classes: seq<string>, tables: map<string, map<string, real>>,
                                       test: map<string, seq<Document>>, success: map<string, nat>, order: seq<string>)
    requires forall i :: 0 <= i < |classes| ==> classes[i] in tables
    requires forall i :: 0 <= i < |order| ==> order[i] in test
    ensures SumNat(TestPairOver(classes, tables, test, success, order))
            == SumNat(success) + SuccessesAlong(classes, tables, test, order)
    decreases |order|
  {
    if order != [] {
      var n := |order| - 1;
      var c := order[n];
      TestPairSum(classes, tables, test, success, order[..n]);
      CreditSum(TestPairOver(classes, tables, test, success, order[..n]), c, Successes(classes, tables, c, test[c]));
    }
  }

  /**
   From an empty `testSuccess` over distinct classes, a class has an entry
   exactly when one of its test documents succeeds, and the entry counts them.
   */
  lemma {:induction false} TestPairFromEmpty(classes: seq<string>, tables: map<string, map<string, real>>,
                                             test: map<string, seq<Document>>, order: seq<string>)
    requires forall i :: 0 <= i < |classes| ==> classes[i] in tables
    requires forall i :: 0 <= i < |order| ==> order[i] in test
    requires Distinct(order)
    ensures var r := TestPairOver(classes, tables, test, map[], order);
            && (forall c :: c in r <==> c in order && Successes(classes, tables, c, test[c]) > 0)
            && (forall c :: c in r ==> r[c] == Successes(classes, tables, c, test[c]))
    decreases |order|
  {
    if order != [] {
      var n := |order| - 1;
      var prefix := order[..n];
      LastMembers(order);
      TestPairFromEmpty(classes, tables, test, prefix);
    }
  }

  /** DynamicPair's `evaluate`: the successes over all N loaded documents; `None` when N is 0. */
  ghost function EvaluatePair(success: map<string, nat>, total: nat): (r: Option<real>)
    ensures r.None? <==> total == 0
    ensures r.Some? ==> r.value >= 0.0
  {
    if total == 0 then None else Some(SumNat(success) as real / total as real)
  }

  /** The accuracy is at most 1 exactly when there are no more successes than documents. */
  lemma EvaluatePairAtMostOne(success: map<string, nat>, total: nat)
    requires total > 0
    ensures EvaluatePair(success, total).value <= 1.0 <==> SumNat(success) <= total
  {
    FractionAtMostOne(SumNat(success), total);
  }

  /** `testSuccess` after DynamicPair's `train` and one `test`, starting from `success`. */
  ghost function PairSuccess(ds: DataSet, success: map<string, nat>): (r: map<string, nat>)
    requires HasClasses(ds)
    ensures SumNat(r) == SumNat(success) + SuccessesAlong(ds.classes, CalculateProbabilityPair(ds.classes, ds.data),
                                                          FloorTest(ds), ds.classes)
  {
    var tables := CalculateProbabilityPair(ds.classes, ds.data);
    TestPairSum(ds.classes, tables, FloorTest(ds), success, ds.classes);
    TestPairOver(ds.classes, tables, FloorTest(ds), success, ds.classes)
  }

  /**
   DynamicPair: train on the first `int(0.8 * n)` documents of each class
   over their own words, test the rest, divide by all documents.
   */
  ghost function PairRun(ds: DataSet, success: map<string, nat>): (r: Option<real>)
    ensures r.None? <==> !HasClasses(ds) || TotalDocuments(ds.data) == 0
  {
    if !HasClasses(ds) then None else EvaluatePair(PairSuccess(ds, success), TotalDocuments(ds.data))
  }

  /**
   From an empty `testSuccess`, each class's entry is at most its number of
   test documents, those from `int(0.8 * n)` on.
   */
  lemma PairSuccessWithin(ds: DataSet)
    requires HasClasses(ds) && Distinct(ds.classes)
    ensures forall c :: c in PairSuccess(ds, map[]) ==>
              c in ds.data && PairSuccess(ds, map[])[c] <= |ds.data[c]| - FloorFourFifths(|ds.data[c]|)
  {
    var tables := CalculateProbabilityPair(ds.classes, ds.data);
    var test := FloorTest(ds);
    TestPairFromEmpty(ds.classes, tables, test, ds.classes);
    forall c | c in PairSuccess(ds, map[])
      ensures PairSuccess(ds, map[])[c] <= |test[c]|
    {
      assert Successes(ds.classes, tables, c, test[c]) <= |Outcomes(ds.classes, tables, test[c])|;
    }
  }

  /**
   From an empty `testSuccess`, the accuracy is at most the share of test
   documents among all documents: a perfect classifier scores about 0.2.
   */
  lemma PairRunBound(ds: DataSet)
    requires HasClasses(ds) && Distinct(ds.classes)
    requires TotalDocuments(ds.data) > 0
    ensures PairRun(ds, map[]).value <= TotalDocuments(FloorTest(ds)) as real / TotalDocuments(ds.data) as real
  {
    var success := PairSuccess(ds, map[]);
    var test := FloorTest(ds);
    PairSuccessWithin(ds);
    SumNatMonotone(success, Sizes(test));
    FractionMonotone(SumNat(success), TotalDocuments(test), TotalDocuments(ds.data));
  }

  /** From an empty `testSuccess`, as after loading, the accuracy is at most 1. */
  lemma PairRunAtMostOne(ds: DataSet)
    requires Distinct(ds.classes)
    ensures PairRun(ds, map[]).Some? ==> PairRun(ds, map[]).value <= 1.0
  {
    if PairRun(ds, map[]).Some? {
      var success := PairSuccess(ds, map[]);
      PairSuccessWithin(ds);
      SumNatMonotone(success, Sizes(ds.data));
      EvaluatePairAtMostOne(success, TotalDocuments(ds.data));
    }
  }

  /** Dynamic's answer for each document, in order. */
  ghost function DynamicOutcomes(tables: seq<map<string, real>>, docs: seq<Document>): (r: seq<Option<real>>)
    ensures |r| == |docs|
    ensures forall i :: 0 <= i < |docs| ==> r[i] == ClassifyDynamic(tables, docs[i].wordsCount)
  {
    seq(|docs|, i requires 0 <= i < |docs| => ClassifyDynamic(tables, docs[i].wordsCount))
  }

  /**
   For each class index i, how many of its documents Dynamic answers with
   `i` itself: the successes `test` credits to that index.
   */
  ghost function MatchCounts(tables: seq<map<string, real>>, datas: seq<seq<Document>>): (m: map<int, nat>)
    ensures forall i :: i in m <==> 0 <= i < |datas|
  {
    map i | 0 <= i < |datas| :: Matches(tables, datas[i], i)
  }

  /** How many of `docs` Dynamic answers with `index`. */
  ghost function Matches(tables: seq<map<string, real>>, docs: seq<Document>, index: int): nat
  {
    multiset(DynamicOutcomes(tables, docs))[Some(index as real)]
  }

  /**
   Dynamic's `test`: every document of class index i counts when
   `classify(data) == i`, a likelihood compared with an integer, so the
   running total grows by the matches of every index.
   */
  ghost function TestDynamic(tables: seq<map<string, real>>, datas: seq<seq<Document>>, success: nat): (r: nat)
    ensures r >= success
    ensures r == success + SumNat(MatchCounts(tables, datas))
    decreases |datas|
  {
    if datas == [] then
      SumNatZero(MatchCounts(tables, datas));
      success
    else
      var n := |datas| - 1;
      MatchCountsSnoc(tables, datas);
      TestDynamic(tables, datas[..n], success) + Count(DynamicOutcomes(tables, datas[n]), Some(n as real))
  }

  /** The last index's matches are added to those of the indices before it. */
  lemma MatchCountsSnoc(tables: seq<map<string, real>>, datas: seq<seq<Document>>)
    requires datas != []
    ensures var n := |datas| - 1;
            SumNat(MatchCounts(tables, datas))
            == SumNat(MatchCounts(tables, datas[..n])) + Matches(tables, datas[n], n)
  {
    var n := |datas| - 1;
    var m, prefix := MatchCounts(tables, datas), MatchCounts(tables, datas[..n]);
    forall i | i in prefix
      ensures prefix[i] == m[i]
    {
      assert datas[..n][i] == datas[i];
    }
    SumNatExtend(m, prefix, n);
  }

  /** All documents of all class indices. */
  function DocumentsIn(datas: seq<seq<Document>>): nat
  {
    if datas == [] then 0 else DocumentsIn(datas[..|datas| - 1]) + |datas[|datas| - 1]|
  }

  ghost predicate TablesInUnit(tables: seq<map<string, real>>)
  {
    forall i, w :: 0 <= i < |tables| && w in tables[i] ==> 0.0 < tables[i][w] <= 1.0
  }

  /**
   In exact arithmetic a likelihood lies in (0, 1], so only class index 1
   can ever match.
   */
  lemma DynamicMatchIsOne(tables: seq<map<string, real>>, counts: map<string, nat>, index: nat)
    requires TablesInUnit(tables)
    requires ClassifyDynamic(tables, counts) == Some(index as real)
    ensures index == 1
  {
    ClassifyDynamicInUnit(tables, counts);
  }

  /**
   With probabilities in (0, 1] and exact arithmetic, Dynamic's successes
   come from class index 1 alone: at most its number of documents are added.
   */
  lemma {:induction false} TestDynamicOnlySecond(tables: seq<map<string, real>>, datas: seq<seq<Document>>, success: nat)
    requires TablesInUnit(tables)
    ensures TestDynamic(tables, datas, success) <= success + (if |datas| > 1 then |datas[1]| else 0)
    decreases |datas|
  {
    if datas != [] {
      var n := |datas| - 1;
      var k := Count(DynamicOutcomes(tables, datas[n]), Some(n as real));
      TestDynamicOnlySecond(tables, datas[..n], success);
      assert TestDynamic(tables, datas, success) == TestDynamic(tables, datas[..n], success) + k;
      if n == 1 {
        assert k <= |datas[1]|;
      } else {
        OtherIndexNeverMatches(tables, datas[n], n);
        if n > 1 {
          assert datas[..n][1] == datas[1];
        }
      }
    }
  }

  /** No document counts for a class index other than 1. */
  lemma OtherIndexNeverMatches(tables: seq<map<string, real>>, docs: seq<Document>, n: nat)
    requires TablesInUnit(tables) && n != 1
    ensures Count(DynamicOutcomes(tables, docs), Some(n as real)) == 0
  {
    var outcomes := DynamicOutcomes(tables, docs);
    forall i | 0 <= i < |outcomes|
      ensures outcomes[i] != Some(n as real)
    {
      if outcomes[i] == Some(n as real) {
        DynamicMatchIsOne(tables, docs[i].wordsCount, n);
      }
    }
  }

  /**
   A document sharing no word with some class's table gets likelihood 1
   there, which is the greatest possible: Dynamic answers 1.0 for it.
   */
  lemma DynamicUnseenAnswersOne(tables: seq<map<string, real>>, counts: map<string, nat>, j: nat)
    requires TablesInUnit(tables) && j < |tables|
    requires forall w :: w in counts ==> w !in tables[j]
    ensures ClassifyDynamic(tables, counts) == Some(1.0)
  {
    var scores := Scores(tables, counts);
    LikelihoodOfUnseen(tables[j], counts);
    forall i | 0 <= i < |scores|
      ensures scores[i] <= scores[j]
    {
    }
    MaxOfUnique(scores, j);
  }

  /** Dynamic's `evaluate`: `testSuccess` over all documents; `None` when there are none. */
  ghost function EvaluateDynamic(success: nat, datas: seq<seq<Document>>): (r: Option<real>)
    ensures r.None? <==> DocumentsIn(datas) == 0
    ensures r.Some? ==> r.value >= 0.0
  {
    var total := DocumentsIn(datas);
    if total == 0 then None else Some(success as real / total as real)
  }

  lemma {:induction false} DocumentsInAt(datas: seq<seq<Document>>, i: nat)
    requires i < |datas|
    ensures |datas[i]| <= DocumentsIn(datas)
    decreases |datas|
  {
    var n := |datas| - 1;
    if i < n {
      DocumentsInAt(datas[..n], i);
    }
  }

  /**
   Dynamic: write each class's smoothed probabilities into the empty tables
   `__init__` creates, test every document, and evaluate, starting from
   `testSuccess == success`.
   */
  ghost function DynamicRun(datas: seq<seq<DataFile>>, success: nat): (r: Option<real>)
    ensures r.None? <==> DocumentsIn(datas) == 0
  {
    var tables := CalculateProbabilityDynamic(seq(|datas|, i => map[]), datas);
    EvaluateDynamic(TestDynamic(tables, datas, success), datas)
  }

  /**
   From `testSuccess == 0` Dynamic's accuracy is at most the share of class
   index 1 in the documents, whatever the classifier learnt.
   */
  lemma DynamicRunBound(datas: seq<seq<DataFile>>)
    requires |datas| > 1
    ensures DynamicRun(datas, 0).Some? ==> DynamicRun(datas, 0).value <= |datas[1]| as real / DocumentsIn(datas) as real
  {
    var tables := CalculateProbabilityDynamic(seq(|datas|, i => map[]), datas);
    DynamicTablesInUnit(datas);
    TestDynamicOnlySecond(tables, datas, 0);
    if DocumentsIn(datas) > 0 {
      FractionMonotone(TestDynamic(tables, datas, 0), |datas[1]|, DocumentsIn(datas));
    }
  }
}
