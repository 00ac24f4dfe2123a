/**
 Training: the per-class word counts (`reduceWordsCount`) and the add-one
 smoothed probability tables built from them.  Evolution2 and Evolution seed
 every class with the whole inventory; DynamicPair and Dynamic count only the
 words a class's training documents contain.
 */
module Training {
  import opened Folds
  import opened Bags
  import opened Documents
  import opened DataSets
  import opened Partition

  /** Every word of every document of `docs` is a key of `vocabulary`. */
  ghost predicate Covers(vocabulary: map<string, nat>, docs: seq<DataFile>)
  {
    forall i, w :: 0 <= i < |docs| && w in docs[i].words ==> w in vocabulary
  }

  /** A list drawn from covered documents is covered. */
  lemma CoversSub(vocabulary: map<string, nat>, docs: seq<DataFile>, sub: seq<DataFile>)
    requires Covers(vocabulary, docs)
    requires forall i :: 0 <= i < |sub| ==> sub[i] in docs
    ensures Covers(vocabulary, sub)
  {
    forall i, w | 0 <= i < |sub| && w in sub[i].words
      ensures w in vocabulary
    {
      var j :| 0 <= j < |docs| && docs[j] == sub[i];
    }
  }

  lemma FlattenMultiset(docs: seq<Document>)
    requires docs != []
    ensures multiset(Flatten(docs)) == multiset(Flatten(docs[..|docs| - 1])) + multiset(docs[|docs| - 1].words)
  {
  }

  /** `wordsAll[word] += value` for each entry of a document's counts (every word is already a key). */
  function AddCounts(acc: map<string, nat>, counts: map<string, nat>): map<string, nat>
  {
    map w | w in acc :: acc[w] + (if w in counts then counts[w] else 0)
  }

  /**
   Evolution2's and Evolution's `reduceWordsCount`: start from the seed
   (the inventory, all zeros) and add the counts of every document.  A word
   missing from the seed would raise `KeyError`, hence the requirement.
   */
  function ReduceWordsCount(seed: map<string, nat>, docs: seq<DataFile>): (r: map<string, nat>)
    requires Covers(seed, docs)
    ensures r.Keys == seed.Keys
    ensures forall w :: w in r ==> r[w] == seed[w] + multiset(Flatten(docs))[w]
    decreases |docs|
  {
    if docs == [] then seed
    else
      var n := |docs| - 1;
      CoversPrefix(seed, docs);
      var prev := ReduceWordsCount(seed, docs[..n]);
      AddCountsStep(seed, docs, prev);
      AddCounts(prev, docs[n].wordsCount)
  }

  lemma CoversPrefix(vocabulary: map<string, nat>, docs: seq<DataFile>)
    requires docs != [] && Covers(vocabulary, docs)
    ensures Covers(vocabulary, docs[..|docs| - 1])
  {
    var n := |docs| - 1;
    assert forall i :: 0 <= i < n ==> docs[..n][i] == docs[i];
  }

  /** Adding the last document's counts to the counts of the others counts them all. */
  lemma AddCountsStep(seed: map<string, nat>, docs: seq<DataFile>, prev: map<string, nat>)
    requires docs != []
    requires prev.Keys == seed.Keys
    requires forall w :: w in prev ==> prev[w] == seed[w] + multiset(Flatten(docs[..|docs| - 1]))[w]
    ensures var r := AddCounts(prev, docs[|docs| - 1].wordsCount);
            r.Keys == seed.Keys && forall w :: w in r ==> r[w] == seed[w] + multiset(Flatten(docs))[w]
  {
    FlattenMultiset(docs);
  }

  /** `wordsAll[word] += value`, or `= value` on `KeyError`. */
  function MergeCounts(acc: map<string, nat>, counts: map<string, nat>): map<string, nat>
  {
    map w | w in acc.Keys + counts.Keys :: (if w in acc then acc[w] else 0) + (if w in counts then counts[w] else 0)
  }

  /**
   DynamicPair's and Dynamic's `reduceWordsCount`: exactly the words of the
   documents, each with its total number of occurrences.
   */
  function ReduceWordsCountDynamic(docs: seq<DataFile>): (r: map<string, nat>)
    ensures forall w :: w in r <==> w in Flatten(docs)
    ensures forall w :: w in r ==> r[w] == multiset(Flatten(docs))[w] >= 1
    decreases |docs|
  {
    if docs == [] then map[]
    else
      var n := |docs| - 1;
      var r := MergeCounts(ReduceWordsCountDynamic(docs[..n]), docs[n].wordsCount);
      assert forall w :: w in r ==> r[w] == multiset(Flatten(docs))[w] by {
        FlattenMultiset(docs);
      }
      r
  }

  /** The dynamic reduction is the bag of words of all the documents taken together. */
  lemma ReduceDynamicIsBag(docs: seq<DataFile>)
    ensures ReduceWordsCountDynamic(docs) == BagOf(Flatten(docs))
  {
  }

  lemma FractionInUnit(a: nat, f: nat)
    requires 0 < a <= f
    ensures 0.0 < a as real / f as real <= 1.0
  {
  }

  lemma FractionMonotone(a: nat, b: nat, f: nat)
    requires a <= b && 0 < f
    ensures a as real / f as real <= b as real / f as real
  {
  }

  lemma FractionWhole(a: nat)
    requires 0 < a
    ensures a as real / a as real == 1.0
  {
  }

  /**
   Add-one smoothing of a table of counts: `(count + 1) / (Σ counts + |table|)`
   for every word of the table.
   */
  ghost function Smooth(wordsAll: map<string, nat>): (p: map<string, real>)
    ensures p.Keys == wordsAll.Keys
  {
    if |wordsAll| == 0 then map[] else Scaled(wordsAll, (SumNat(wordsAll) + |wordsAll|) as real)
  }

  /** Each count plus one, over a common factor. */
  function Scaled(m: map<string, nat>, f: real): (s: map<string, real>)
    requires f > 0.0
    ensures s.Keys == m.Keys
  {
    map w | w in m :: Ratio(m[w] + 1, f)
  }

  /** Each count plus one. */
  function PlusOne(m: map<string, nat>): (a: map<string, nat>)
    ensures a.Keys == m.Keys
    ensures SumNat(a) == SumNat(m) + |m|
  {
    var a := map w | w in m :: m[w] + 1;
    SumNatPlusOne(a, m);
    a
  }

  lemma PlusOneRatio(m: map<string, nat>, f: real)
    requires f > 0.0
    ensures Ratio(SumNat(PlusOne(m)), f) == Ratio(SumNat(m) + |m|, f)
  {
    var a := PlusOne(m);
    assert SumNat(a) == SumNat(m) + |m|;
  }

  /** Every smoothed value is a probability in (0, 1]. */
  lemma SmoothInUnit(wordsAll: map<string, nat>)
    ensures forall w :: w in Smooth(wordsAll) ==> 0.0 < Smooth(wordsAll)[w] <= 1.0
  {
    SumNatBounds(wordsAll);
    var factor := SumNat(wordsAll) + |wordsAll|;
    forall w | w in wordsAll
      ensures 0.0 < Smooth(wordsAll)[w] <= 1.0
    {
      FractionInUnit(wordsAll[w] + 1, factor);
    }
  }

  /** The scaled counts `(m[w]+1)/f` sum to `(Σ m + |m|)/f`. */
  lemma ScaledSum(m: map<string, nat>, f: real)
    requires f > 0.0
    ensures SumReal(Scaled(m, f)) == Ratio(SumNat(m) + |m|, f)
  {
    SumRealOver(PlusOne(m), Scaled(m, f), f);
    PlusOneRatio(m, f);
  }

  /** The smoothed probabilities of a non-empty table sum to exactly 1. */
  lemma SmoothSumsToOne(wordsAll: map<string, nat>)
    requires |wordsAll| > 0
    ensures SumReal(Smooth(wordsAll)) == 1.0
  {
    var factor := SumNat(wordsAll) + |wordsAll|;
    ScaledSum(wordsAll, factor as real);
    FractionWhole(factor);
  }

  /** A more frequent word never gets a smaller probability. */
  lemma SmoothMonotone(wordsAll: map<string, nat>, u: string, v: string)
    requires u in wordsAll && v in wordsAll && wordsAll[u] <= wordsAll[v]
    ensures Smooth(wordsAll)[u] <= Smooth(wordsAll)[v]
  {
    var factor := SumNat(wordsAll) + |wordsAll|;
    FractionMonotone(wordsAll[u] + 1, wordsAll[v] + 1, factor);
  }

  /** Evolution2's `inventoryWord`: `dict.fromkeys(inventory, 0)`. */
  function ZeroTable(inventory: map<string, nat>): (r: map<string, nat>)
    ensures r.Keys == inventory.Keys
    ensures forall w :: w in r ==> r[w] == 0
  {
    map w | w in inventory :: 0
  }

  /**
   A table seeded with a zero vocabulary that covers the documents gives
   each vocabulary word `(occurrences + 1) / (number of words + |vocabulary|)`.
   */
  lemma SeededClosedForm(vocabulary: map<string, nat>, docs: seq<DataFile>, tokens: seq<string>, w: string)
    requires forall w :: w in vocabulary ==> vocabulary[w] == 0
    requires Covers(vocabulary, docs) && w in vocabulary && |vocabulary| > 0
    requires tokens == Flatten(docs)
    ensures Smooth(ReduceWordsCount(vocabulary, docs))[w] == (multiset(tokens)[w] + 1) as real / (|tokens| + |vocabulary|) as real
  {
    SeededCountsSum(vocabulary, docs);
    SeededCountAt(vocabulary, docs, w);
    SmoothClosedOver(ReduceWordsCount(vocabulary, docs), tokens, vocabulary, w);
  }

  lemma SeededCountAt(vocabulary: map<string, nat>, docs: seq<DataFile>, w: string)
    requires forall w :: w in vocabulary ==> vocabulary[w] == 0
    requires Covers(vocabulary, docs) && w in vocabulary
    ensures w in ReduceWordsCount(vocabulary, docs)
    ensures ReduceWordsCount(vocabulary, docs)[w] == multiset(Flatten(docs))[w]
  {
  }

  lemma SmoothClosed(counts: map<string, nat>, w: string, occurrences: nat, total: nat, size: nat)
    requires w in counts && counts[w] == occurrences
    requires SumNat(counts) == total && |counts| == size && size >= 1
    ensures Smooth(counts)[w] == (occurrences + 1) as real / (total + size) as real
  {
  }

  lemma SmoothClosedOver(counts: map<string, nat>, tokens: seq<string>, vocabulary: map<string, nat>, w: string)
    requires w in counts && counts[w] == multiset(tokens)[w]
    requires SumNat(counts) == |tokens| && |counts| == |vocabulary| && |vocabulary| >= 1
    ensures Smooth(counts)[w] == (multiset(tokens)[w] + 1) as real / (|tokens| + |vocabulary|) as real
  {
    SmoothClosed(counts, w, multiset(tokens)[w], |tokens|, |vocabulary|);
  }

  /** Seeded with zeros, the counts add up to the number of words of the documents. */
  lemma SeededCountsSum(vocabulary: map<string, nat>, docs: seq<DataFile>)
    requires forall w :: w in vocabulary ==> vocabulary[w] == 0
    requires Covers(vocabulary, docs)
    ensures SumNat(ReduceWordsCount(vocabulary, docs)) == |Flatten(docs)|
    ensures |ReduceWordsCount(vocabulary, docs)| == |vocabulary|
  {
    var counts := ReduceWordsCount(vocabulary, docs);
    var tokens := Flatten(docs);
    FlattenMember(docs);
    SeededIsCountsOver(vocabulary, docs);
    CountsOverSum(vocabulary.Keys, tokens);
    assert counts.Keys == vocabulary.Keys;
  }

  lemma SeededIsCountsOver(vocabulary: map<string, nat>, docs: seq<DataFile>)
    requires forall w :: w in vocabulary ==> vocabulary[w] == 0
    requires Covers(vocabulary, docs)
    ensures ReduceWordsCount(vocabulary, docs) == CountsOver(vocabulary.Keys, Flatten(docs))
  {
    var counts := ReduceWordsCount(vocabulary, docs);
    var expected := CountsOver(vocabulary.Keys, Flatten(docs));
    assert counts.Keys == expected.Keys;
    forall w | w in counts
      ensures counts[w] == expected[w]
    {
    }
  }

  lemma CoversZero(inventory: map<string, nat>, docs: seq<DataFile>)
    requires Covers(inventory, docs)
    ensures Covers(ZeroTable(inventory), docs)
  {
  }

  /**
   One class's table when every class is seeded with the same vocabulary
   (Evolution2, Evolution): a probability in (0, 1] for exactly the
   vocabulary's words.
   */
  ghost function SeededTable(vocabulary: map<string, nat>, docs: seq<DataFile>): (p: map<string, real>)
    requires Covers(vocabulary, docs)
    ensures p.Keys == vocabulary.Keys
    ensures forall w :: w in p ==> 0.0 < p[w] <= 1.0
  {
    var counts := ReduceWordsCount(vocabulary, docs);
    SmoothInUnit(counts);
    Smooth(counts)
  }

  /**
   One class's table when the vocabulary is the class's own (DynamicPair,
   Dynamic): a probability in (0, 1] for exactly the words of its documents.
   */
  ghost function DynamicTable(docs: seq<DataFile>): (p: map<string, real>)
    ensures forall w :: w in p <==> w in Flatten(docs)
    ensures forall w :: w in p ==> 0.0 < p[w] <= 1.0
  {
    var counts := ReduceWordsCountDynamic(docs);
    SmoothInUnit(counts);
    Smooth(counts)
  }

  /**
   An unseeded table gives each word of its documents `(occurrences + 1) /
   (number of words + number of distinct words)`.
   */
  lemma DynamicClosedForm(docs: seq<DataFile>, tokens: seq<string>, w: string)
    requires tokens == Flatten(docs) && w in tokens
    ensures w in DynamicTable(docs)
    ensures DynamicTable(docs)[w] == (multiset(tokens)[w] + 1) as real / (|tokens| + |WordSet(tokens)|) as real
  {
    ReduceDynamicIsBag(docs);
    SmoothBagAt(tokens, w);
  }

  /** Smoothing the bag of a word list gives a word `(occurrences + 1) / (words + distinct words)`. */
  lemma SmoothBagAt(tokens: seq<string>, w: string)
    requires w in tokens
    ensures w in Smooth(BagOf(tokens))
    ensures Smooth(BagOf(tokens))[w] == (multiset(tokens)[w] + 1) as real / (|tokens| + |WordSet(tokens)|) as real
  {
    BagSize(tokens);
    SmoothClosedWords(BagOf(tokens), tokens, WordSet(tokens), w);
  }

  lemma SmoothClosedWords(counts: map<string, nat>, tokens: seq<string>, words: set<string>, w: string)
    requires w in counts && counts[w] == multiset(tokens)[w]
    requires SumNat(counts) == |tokens| && |counts| == |words| && |words| >= 1
    ensures Smooth(counts)[w] == (multiset(tokens)[w] + 1) as real / (|tokens| + |words|) as real
  {
    SmoothClosed(counts, w, multiset(tokens)[w], |tokens|, |words|);
  }

  /**
   Evolution2's `train`: every class gets a table over the whole inventory,
   smoothed from the counts of its training documents.
   */
  ghost function Train(classes: seq<string>, inventory: map<string, nat>, trainData: map<string, seq<DataFile>>)
    : (probs: map<string, map<string, real>>)
    requires forall c :: c in classes ==> c in trainData
    requires forall c :: c in trainData ==> Covers(inventory, trainData[c])
    ensures forall c :: c in probs <==> c in classes
    ensures forall c :: c in probs ==> probs[c].Keys == inventory.Keys
    ensures forall c, w :: c in probs && w in probs[c] ==> 0.0 < probs[c][w] <= 1.0
  {
    map c | c in classes :: InventoryTable(inventory, trainData[c])
  }

  /** One class's table seeded with the whole inventory at zero. */
  ghost function InventoryTable(inventory: map<string, nat>, docs: seq<DataFile>): (p: map<string, real>)
    requires Covers(inventory, docs)
    ensures p.Keys == inventory.Keys
    ensures forall w :: w in p ==> 0.0 < p[w] <= 1.0
  {
    CoversZero(inventory, docs);
    assert ZeroTable(inventory).Keys == inventory.Keys;
    SeededTable(ZeroTable(inventory), docs)
  }

  lemma TrainAt(classes: seq<string>, inventory: map<string, nat>, trainData: map<string, seq<DataFile>>, c: string)
    requires forall c :: c in classes ==> c in trainData
    requires forall c :: c in trainData ==> Covers(inventory, trainData[c])
    requires c in classes
    ensures Covers(ZeroTable(inventory), trainData[c])
    ensures Train(classes, inventory, trainData)[c] == SeededTable(ZeroTable(inventory), trainData[c])
  {
    CoversZero(inventory, trainData[c]);
  }

  /** Evolution2: each probability is the smoothed relative frequency of its word in the class. */
  lemma TrainClosedForm(classes: seq<string>, inventory: map<string, nat>, trainData: map<string, seq<DataFile>>,
                        c: string, tokens: seq<string>, w: string)
    requires forall c :: c in classes ==> c in trainData
    requires forall c :: c in trainData ==> Covers(inventory, trainData[c])
    requires c in classes && w in inventory && |inventory| > 0
    requires tokens == Flatten(trainData[c])
    ensures Train(classes, inventory, trainData)[c][w] == (multiset(tokens)[w] + 1) as real / (|tokens| + |inventory|) as real
  {
    var zero := ZeroTable(inventory);
    TrainAt(classes, inventory, trainData, c);
    assert |zero| == |inventory| by {
      assert zero.Keys == inventory.Keys;
    }
    SeededCountsSum(zero, trainData[c]);
    SeededCountAt(zero, trainData[c], w);
    SmoothClosedOver(ReduceWordsCount(zero, trainData[c]), tokens, inventory, w);
  }

  /** Evolution2: over a non-empty inventory every class's probabilities sum to 1. */
  lemma TrainSumsToOne(classes: seq<string>, inventory: map<string, nat>, trainData: map<string, seq<DataFile>>,
                       c: string)
    requires forall c :: c in classes ==> c in trainData
    requires forall c :: c in trainData ==> Covers(inventory, trainData[c])
    requires c in classes && |inventory| > 0
    ensures SumReal(Train(classes, inventory, trainData)[c]) == 1.0
  {
    TrainAt(classes, inventory, trainData, c);
    var counts := ReduceWordsCount(ZeroTable(inventory), trainData[c]);
    var w :| w in inventory;
    assert w in counts;
    SmoothSumsToOne(counts);
  }

  /** The first `int(0.8 * n)` documents, Evolution's, DynamicPair's and Dynamic's training part. */
  function FloorHead(docs: seq<DataFile>): (train: seq<DataFile>)
    ensures |train| == FloorFourFifths(|docs|)
    ensures forall i :: 0 <= i < |train| ==> train[i] == docs[i]
  {
    docs[..FloorFourFifths(|docs|)]
  }

  lemma LoadedCovered(data: map<string, seq<DataFile>>, c: string)
    requires c in data
    ensures Covers(InventoryWord(data), data[c])
    ensures Covers(InventoryWord(data), FloorHead(data[c]))
  {
    var vocabulary := InventoryWord(data);
    forall i, w | 0 <= i < |data[c]| && w in data[c][i].words
      ensures w in vocabulary
    {
      assert Occurs(data, w);
    }
    CoversSub(vocabulary, data[c], FloorHead(data[c]));
  }

  /**
   Evolution's `calculateProbability`: each class is trained on its first
   `int(0.8 * n)` documents over the vocabulary of all loaded documents.
   */
  ghost function CalculateProbability(classes: seq<string>, data: map<string, seq<DataFile>>)
    : (probs: map<string, map<string, real>>)
    requires forall c :: c in classes ==> c in data
    ensures forall c :: c in probs <==> c in classes
    ensures forall c, w :: c in probs ==> (w in probs[c] <==> Occurs(data, w))
    ensures forall c, w :: c in probs && w in probs[c] ==> 0.0 < probs[c][w] <= 1.0
  {
    map c | c in classes :: (LoadedCovered(data, c); SeededTable(InventoryWord(data), FloorHead(data[c])))
  }

  /** Evolution: every class's probabilities sum to 1 once any word is loaded. */
  lemma CalculateProbabilitySumsToOne(classes: seq<string>, data: map<string, seq<DataFile>>, c: string, w: string)
    requires forall c :: c in classes ==> c in data
    requires c in classes && Occurs(data, w)
    ensures SumReal(CalculateProbability(classes, data)[c]) == 1.0
  {
    LoadedCovered(data, c);
    var counts := ReduceWordsCount(InventoryWord(data), FloorHead(data[c]));
    assert CalculateProbability(classes, data)[c] == Smooth(counts);
    assert w in counts;
    SmoothSumsToOne(counts);
  }

  /**
   DynamicPair's `calculateProbability`: each class is trained on its first
   `int(0.8 * n)` documents over the words those documents contain.
   */
  ghost function CalculateProbabilityPair(classes: seq<string>, data: map<string, seq<DataFile>>)
    : (probs: map<string, map<string, real>>)
    requires forall c :: c in classes ==> c in data
    ensures forall c :: c in probs <==> c in classes
    ensures forall c, w :: c in probs ==> (w in probs[c] <==> w in Flatten(FloorHead(data[c])))
    ensures forall c, w :: c in probs && w in probs[c] ==> 0.0 < probs[c][w] <= 1.0
  {
    map c | c in classes :: DynamicTable(FloorHead(data[c]))
  }

  /** DynamicPair: a class's probabilities sum to 1 over its own vocabulary, when it has one. */
  lemma PairSumsToOne(classes: seq<string>, data: map<string, seq<DataFile>>, c: string)
    requires forall c :: c in classes ==> c in data
    requires c in classes && Flatten(FloorHead(data[c])) != []
    ensures SumReal(CalculateProbabilityPair(classes, data)[c]) == 1.0
  {
    var counts := ReduceWordsCountDynamic(FloorHead(data[c]));
    assert CalculateProbabilityPair(classes, data)[c] == Smooth(counts);
    assert Flatten(FloorHead(data[c]))[0] in counts;
    SmoothSumsToOne(counts);
  }

  /**
   Dynamic's `calculateProbability`: for each class index i, the smoothed
   values of the words of its first `int(0.8 * n)` documents are written
   into the existing table `wordsProbability[i]`; its other entries stay.
   */
  ghost function CalculateProbabilityDynamic(tables: seq<map<string, real>>, datas: seq<seq<DataFile>>)
    : (r: seq<map<string, real>>)
    requires |datas| <= |tables|
    ensures |r| == |tables|
    ensures forall i :: |datas| <= i < |r| ==> r[i] == tables[i]
    ensures forall i, w :: 0 <= i < |datas| ==>
              (w in r[i] <==> w in tables[i] || w in Flatten(FloorHead(datas[i])))
    ensures forall i, w :: 0 <= i < |datas| && w in Flatten(FloorHead(datas[i])) ==> 0.0 < r[i][w] <= 1.0
    ensures forall i, w :: 0 <= i < |datas| && w in r[i] && w !in Flatten(FloorHead(datas[i])) ==> r[i][w] == tables[i][w]
  {
    seq(|tables|, i requires 0 <= i < |tables| =>
      if i < |datas| then tables[i] + DynamicTable(FloorHead(datas[i])) else tables[i])
  }

  /** Dynamic: starting from the empty tables `__init__` creates, every value lies in (0, 1]. */
  lemma DynamicTablesInUnit(datas: seq<seq<DataFile>>)
    ensures var r := CalculateProbabilityDynamic(seq(|datas|, i => map[]), datas);
            forall i, w :: 0 <= i < |r| && w in r[i] ==> 0.0 < r[i][w] <= 1.0
  {
  }
}
