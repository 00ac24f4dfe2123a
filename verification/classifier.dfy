/**
 Classification of one document: the likelihood of a class is the product,
 over the words of the class's probability table that the document contains,
 of `p ** count`; the named classifiers answer the first class of greatest
 likelihood, the Dynamic one the greatest likelihood itself.
 */
module Classifier {
  import opened Basics
  import opened Folds

  /**
   The factors `pow(p, wordsCount[word])` for each word of the table that
   the document contains; other table words contribute nothing.
   */
  function Factors(table: map<string, real>, counts: map<string, nat>): (f: map<string, real>)
    ensures forall w :: w in f <==> w in table && w in counts
    ensures (forall w :: w in table ==> 0.0 < table[w] <= 1.0) ==> forall w :: w in f ==> 0.0 < f[w] <= 1.0
  {
    map w | w in table && w in counts :: Pow(table[w], counts[w])
  }

  /** `probability[className]` after the loop over the class's table. */
  ghost function Likelihood(table: map<string, real>, counts: map<string, nat>): (r: real)
    ensures (forall w :: w in table ==> 0.0 < table[w] <= 1.0) ==> 0.0 < r <= 1.0
  {
    var factors := Factors(table, counts);
    if forall w :: w in table ==> 0.0 < table[w] <= 1.0 then
      ProductInUnit(factors);
      Product(factors)
    else
      Product(factors)
  }

  /** A document sharing no word with the table keeps the initial likelihood 1. */
  lemma LikelihoodOfUnseen(table: map<string, real>, counts: map<string, nat>)
    requires forall w :: w in counts ==> w !in table
    ensures Likelihood(table, counts) == 1.0
  {
    assert |Factors(table, counts)| == 0 by {
      assert Factors(table, counts).Keys == {};
    }
  }

  /**
   Only the table entries of words the document contains matter: two
   tables that agree on those words give the same likelihood, whatever else
   they hold (Dynamic's stale entries, for instance).
   */
  lemma LikelihoodLocal(table: map<string, real>, table': map<string, real>, counts: map<string, nat>)
    requires forall w :: w in counts ==> (w in table <==> w in table')
    requires forall w :: w in counts && w in table ==> table[w] == table'[w]
    ensures Likelihood(table, counts) == Likelihood(table', counts)
  {
    assert Factors(table, counts) == Factors(table', counts);
  }

  /**
   The likelihood splits into one word's factor `pow(p, count)` times the
   likelihood over the rest of the table: which word the loop meets first
   does not matter.
   */
  lemma LikelihoodFactor(table: map<string, real>, counts: map<string, nat>, w: string)
    requires w in table && w in counts
    ensures Likelihood(table, counts) == Pow(table[w], counts[w]) * Likelihood(table - {w}, counts)
  {
    var factor, rest := Pow(table[w], counts[w]), Likelihood(table - {w}, counts);
    LikelihoodRemove(table, counts, w);
    TimesMul(factor, rest);
  }

  lemma LikelihoodRemove(table: map<string, real>, counts: map<string, nat>, w: string)
    requires w in table && w in counts
    ensures Likelihood(table, counts) == Times(Pow(table[w], counts[w]), Likelihood(table - {w}, counts))
  {
    var factors := Factors(table, counts);
    ProductRemove(factors, w);
    assert factors - {w} == Factors(table - {w}, counts);
  }

  /** No class is named by the empty string, which Python would treat as false. */
  predicate Named(classes: seq<string>)
  {
    forall i :: 0 <= i < |classes| ==> classes[i] != ""
  }

  /**
   The position `maxClass` ends at: the loop over `classes` replaces the
   current choice when there is none yet, when it is the falsy name "", or
   when the new class is strictly more likely.
   */
  function ArgMax(classes: seq<string>, probs: map<string, real>): (r: Option<nat>)
    requires forall i :: 0 <= i < |classes| ==> classes[i] in probs
    ensures r.None? <==> |classes| == 0
    ensures r.Some? ==> r.value < |classes|
    ensures r.Some? ==> forall j :: r.value < j < |classes| ==>
              classes[r.value] != "" && probs[classes[j]] <= probs[classes[r.value]]
    ensures r.Some? && Named(classes) ==> forall j :: 0 <= j < r.value ==> probs[classes[j]] < probs[classes[r.value]]
    ensures r.Some? && Named(classes) ==> forall j :: 0 <= j < |classes| ==> probs[classes[j]] <= probs[classes[r.value]]
    decreases |classes|
  {
    if classes == [] then None
    else
      var n := |classes| - 1;
      var prefix := classes[..n];
      assert forall i :: 0 <= i < n ==> prefix[i] == classes[i];
      var prev := ArgMax(prefix, probs);
      if prev.None? then Some(n)
      else if classes[prev.value] == "" || probs[classes[prev.value]] < probs[classes[n]] then Some(n)
      else prev
  }

  /** `k` is the first position of greatest probability. */
  ghost predicate IsFirstMax(classes: seq<string>, probs: map<string, real>, k: nat)
    requires forall i :: 0 <= i < |classes| ==> classes[i] in probs
  {
    && k < |classes|
    && (forall j :: 0 <= j < |classes| ==> probs[classes[j]] <= probs[classes[k]])
    && (forall j :: 0 <= j < k ==> probs[classes[j]] < probs[classes[k]])
  }

  /** Among named classes the loop picks exactly the first most probable one. */
  lemma ArgMaxIsFirstMax(classes: seq<string>, probs: map<string, real>, k: nat)
    requires forall i :: 0 <= i < |classes| ==> classes[i] in probs
    requires Named(classes)
    ensures ArgMax(classes, probs) == Some(k) <==> IsFirstMax(classes, probs, k)
  {
    var r := ArgMax(classes, probs);
    if IsFirstMax(classes, probs, k) {
      assert r.Some?;
    }
  }

  /** A class named "" never keeps the choice: the next class takes it whatever its likelihood. */
  lemma EmptyNameIsPassedOver()
    ensures ArgMax(["", "neg"], map["" := 1.0, "neg" := 0.25]) == Some(1)
  {
    var classes := ["", "neg"];
    var probs := map["" := 1.0, "neg" := 0.25];
    assert classes[..1] == [""];
    assert ArgMax(classes[..1], probs) == Some(0);
  }

  /**
   `classify` of Evolution2, Evolution and DynamicPair: the most likely
   class, the first one on ties; `None` only when there are no classes.
   */
  ghost function Classify(classes: seq<string>, tables: map<string, map<string, real>>, counts: map<string, nat>)
    : (r: Option<string>)
    requires forall i :: 0 <= i < |classes| ==> classes[i] in tables
    ensures r.None? <==> |classes| == 0
    ensures r.Some? ==> r.value in classes
    ensures r.Some? && Named(classes) ==> forall i :: 0 <= i < |classes| ==>
              Likelihood(tables[classes[i]], counts) <= Likelihood(tables[r.value], counts)
  {
    var probs := map c | c in tables :: Likelihood(tables[c], counts);
    var k := ArgMax(classes, probs);
    if k.None? then None else Some(classes[k.value])
  }

  /** The class answered is the one at the first position of greatest likelihood. */
  lemma ClassifyFirstMax(classes: seq<string>, tables: map<string, map<string, real>>, counts: map<string, nat>, k: nat)
    requires forall i :: 0 <= i < |classes| ==> classes[i] in tables
    requires Named(classes) && k < |classes|
    requires forall j :: 0 <= j < |classes| ==> Likelihood(tables[classes[j]], counts) <= Likelihood(tables[classes[k]], counts)
    requires forall j :: 0 <= j < k ==> Likelihood(tables[classes[j]], counts) < Likelihood(tables[classes[k]], counts)
    ensures Classify(classes, tables, counts) == Some(classes[k])
  {
    var probs := map c | c in tables :: Likelihood(tables[c], counts);
    assert IsFirstMax(classes, probs, k);
    ArgMaxIsFirstMax(classes, probs, k);
  }

  /** Python's `max` over a list of reals; `None` where it raises on an empty list. */
  function MaxOf(xs: seq<real>): (r: Option<real>)
    ensures r.None? <==> |xs| == 0
    ensures r.Some? ==> r.value in xs
    ensures r.Some? ==> forall i :: 0 <= i < |xs| ==> xs[i] <= r.value
    decreases |xs|
  {
    if xs == [] then None
    else
      var n := |xs| - 1;
      var prev := MaxOf(xs[..n]);
      assert forall i :: 0 <= i < n ==> xs[..n][i] == xs[i];
      if prev.None? || prev.value < xs[n] then Some(xs[n]) else prev
  }

  /** The greatest element is unique: any element bounding all others is what `MaxOf` returns. */
  lemma MaxOfUnique(xs: seq<real>, i: nat)
    requires i < |xs|
    requires forall j :: 0 <= j < |xs| ==> xs[j] <= xs[i]
    ensures MaxOf(xs) == Some(xs[i])
  {
    var r := MaxOf(xs);
    var m :| 0 <= m < |xs| && xs[m] == r.value;
    assert xs[m] <= xs[i] && xs[i] <= r.value;
  }

  /** Dynamic's `probability` list: the likelihood of the document under each class index. */
  ghost function Scores(tables: seq<map<string, real>>, counts: map<string, nat>): (s: seq<real>)
    ensures |s| == |tables|
    ensures forall i :: 0 <= i < |tables| ==> s[i] == Likelihood(tables[i], counts)
  {
    seq(|tables|, i requires 0 <= i < |tables| => Likelihood(tables[i], counts))
  }

  /** Dynamic's `classify`: the greatest likelihood over the class indices. */
  ghost function ClassifyDynamic(tables: seq<map<string, real>>, counts: map<string, nat>): (r: Option<real>)
    ensures r.None? <==> |tables| == 0
    ensures r.Some? ==> r.value in Scores(tables, counts)
    ensures r.Some? ==> forall i :: 0 <= i < |tables| ==> Likelihood(tables[i], counts) <= r.value
  {
    MaxOf(Scores(tables, counts))
  }

  /** With probabilities in (0, 1], the Dynamic answer is in (0, 1]. */
  lemma ClassifyDynamicInUnit(tables: seq<map<string, real>>, counts: map<string, nat>)
    requires forall i, w :: 0 <= i < |tables| && w in tables[i] ==> 0.0 < tables[i][w] <= 1.0
    requires |tables| > 0
    ensures var r := ClassifyDynamic(tables, counts); 0.0 < r.value <= 1.0
  {
    var r := ClassifyDynamic(tables, counts);
    var m :| 0 <= m < |tables| && r.value == Scores(tables, counts)[m];
  }
}
