/**
 How each class's document list is cut into training and test parts: the
 80/20 holdout split and the five contiguous windows of cross-validation.
 Python's float expressions are written as exact integer formulas: the
 fractional part of `0.8*n` and of `i*n/5` is a multiple of 1/5, so rounding
 to nearest never meets a tie.
 */
module Partition {

  /** `round(n * 0.8)`: the integer nearest to 4n/5. */
  function RoundFourFifths(n: nat): (r: nat)
    ensures -5 < 10 * r - 8 * n < 5
    ensures r <= n
  {
    (4 * n + 2) / 5
  }

  /** `int(0.8 * n)`: 4n/5 rounded down. */
  function FloorFourFifths(n: nat): (r: nat)
    ensures 5 * r <= 4 * n < 5 * r + 5
    ensures r <= n
  {
    (4 * n) / 5
  }

  /** `math.ceil(0.2 * n)`: n/5 rounded up. */
  function CeilFifth(n: nat): (r: nat)
    ensures 5 * r - 5 < n <= 5 * r
    ensures r == 0 <==> n == 0
  {
    (n + 4) / 5
  }

  /** The number of folds of cross-validation. */
  const Parts: nat := 5

  /** `round(i * (n / 5))`: the integer nearest to i·n/5. */
  function FoldBound(i: nat, n: nat): (b: nat)
    ensures -5 < 10 * b - 2 * (i * n) < 5
  {
    var p := i * n;
    (2 * p + 5) / 10
  }

  /** The boundaries start at 0, end at n and never decrease. */
  lemma FoldBoundsMonotone(n: nat)
    ensures FoldBound(0, n) == 0
    ensures FoldBound(Parts, n) == n
    ensures forall i, j :: 0 <= i <= j ==> FoldBound(i, n) <= FoldBound(j, n)
  {
    forall i, j | 0 <= i <= j
      ensures FoldBound(i, n) <= FoldBound(j, n)
    {
      FoldBoundLe(i, j, n);
    }
  }

  lemma FoldBoundLe(i: nat, j: nat, n: nat)
    requires i <= j
    ensures FoldBound(i, n) <= FoldBound(j, n)
  {
    MulMonotone(i, j, n);
    DivMonotone(2 * (i * n) + 5, 2 * (j * n) + 5);
  }

  lemma MulMonotone(i: nat, j: nat, k: nat)
    requires i <= j
    ensures i * k <= j * k
  {
    var d := j - i;
    assert j * k == i * k + d * k;
  }

  lemma DivMonotone(x: nat, y: nat)
    requires x <= y
    ensures x / 10 <= y / 10
  {
  }

  /** The holdout training part of one class: its first `cut` documents. */
  function Head<T>(docs: seq<T>, cut: nat): seq<T>
  {
    if cut <= |docs| then docs[..cut] else docs
  }

  /** The holdout test part of one class: the documents from `cut` on. */
  function Tail<T>(docs: seq<T>, cut: nat): seq<T>
  {
    if cut <= |docs| then docs[cut..] else []
  }

  /** Training and test parts put back together give the class list, so no document is lost or repeated. */
  lemma HeadTail<T>(docs: seq<T>, cut: nat)
    ensures Head(docs, cut) + Tail(docs, cut) == docs
    ensures |Tail(docs, cut)| == if cut <= |docs| then |docs| - cut else 0
  {
  }

  /** Fold i's test window of one class: `data[round(i*n/5) : round((i+1)*n/5)]`. */
  function FoldTest<T>(docs: seq<T>, i: nat): (window: seq<T>)
    requires i < Parts
    ensures |window| == FoldBound(i + 1, |docs|) - FoldBound(i, |docs|)
  {
    FoldBoundsMonotone(|docs|);
    docs[FoldBound(i, |docs|)..FoldBound(i + 1, |docs|)]
  }

  /**
   Fold i's training part of one class: the prefix before the window (only
   added when i > 0) and the suffix after it (only added when i < 4).
   */
  function FoldTrain<T>(docs: seq<T>, i: nat): (train: seq<T>)
    requires i < Parts
  {
    FoldBoundsMonotone(|docs|);
    var n := |docs|;
    (if i > 0 then docs[..FoldBound(i, n)] else [])
      + (if i < Parts - 1 then docs[FoldBound(i + 1, n)..] else [])
  }

  /** The guards are harmless: fold i trains on everything outside its window. */
  lemma FoldTrainIsComplement<T>(docs: seq<T>, i: nat)
    requires i < Parts
    ensures FoldTrain(docs, i) == docs[..FoldBound(i, |docs|)] + docs[FoldBound(i + 1, |docs|)..]
    ensures FoldTrain(docs, i)[..FoldBound(i, |docs|)] + FoldTest(docs, i)
              + FoldTrain(docs, i)[FoldBound(i, |docs|)..] == docs
  {
    FoldBoundsMonotone(|docs|);
    var n := |docs|;
    var lo, hi := FoldBound(i, n), FoldBound(i + 1, n);
    if i == 0 {
      assert lo == 0;
    }
    if i == Parts - 1 {
      assert hi == n;
      assert docs[hi..] == [];
    }
    var train := docs[..lo] + docs[hi..];
    assert train[..lo] == docs[..lo];
    assert train[lo..] == docs[hi..];
    assert docs == docs[..lo] + docs[lo..hi] + docs[hi..];
  }

  /** The six boundaries of one class, in order. */
  lemma FoldBoundChain(n: nat)
    ensures 0 == FoldBound(0, n) <= FoldBound(1, n) <= FoldBound(2, n) <= FoldBound(3, n)
              <= FoldBound(4, n) <= FoldBound(5, n) == n
  {
    FoldBoundsMonotone(n);
    assert FoldBound(0, n) <= FoldBound(1, n);
    assert FoldBound(1, n) <= FoldBound(2, n);
    assert FoldBound(2, n) <= FoldBound(3, n);
    assert FoldBound(3, n) <= FoldBound(4, n);
    assert FoldBound(4, n) <= FoldBound(5, n);
  }

  lemma ConcatSlices<T>(s: seq<T>, a: nat, b: nat, c: nat)
    requires a <= b <= c <= |s|
    ensures s[a..b] + s[b..c] == s[a..c]
  {
  }

  /** The five test windows, in fold order, concatenate to the class list. */
  lemma FoldTestsCover<T>(docs: seq<T>)
    ensures FoldTest(docs, 0) + FoldTest(docs, 1) + FoldTest(docs, 2) + FoldTest(docs, 3) + FoldTest(docs, 4) == docs
  {
    var n := |docs|;
    FoldBoundChain(n);
    var b0, b1, b2, b3, b4, b5 := FoldBound(0, n), FoldBound(1, n), FoldBound(2, n), FoldBound(3, n), FoldBound(4, n), FoldBound(5, n);
    ConcatSlices(docs, b0, b1, b2);
    ConcatSlices(docs, b0, b2, b3);
    ConcatSlices(docs, b0, b3, b4);
    ConcatSlices(docs, b0, b4, b5);
    calc {
      FoldTest(docs, 0) + FoldTest(docs, 1) + FoldTest(docs, 2) + FoldTest(docs, 3) + FoldTest(docs, 4);
      docs[b0..b1] + docs[b1..b2] + docs[b2..b3] + docs[b3..b4] + docs[b4..b5];
      docs[b0..b5];
      docs;
    }
  }

  /** Every position of the class list lies in some test window... */
  lemma FoldOfPosition(n: nat, k: nat)
    requires k < n
    ensures exists i :: 0 <= i < Parts && FoldBound(i, n) <= k < FoldBound(i + 1, n)
  {
    FoldBoundChain(n);
    var i := if k < FoldBound(1, n) then 0
             else if k < FoldBound(2, n) then 1
             else if k < FoldBound(3, n) then 2
             else if k < FoldBound(4, n) then 3
             else 4;
    assert FoldBound(i, n) <= k < FoldBound(i + 1, n);
  }

  /** ...and in only one. */
  lemma FoldOfPositionUnique(n: nat, k: nat, i: nat, j: nat)
    requires FoldBound(i, n) <= k < FoldBound(i + 1, n)
    requires FoldBound(j, n) <= k < FoldBound(j + 1, n)
    ensures i == j
  {
    if i < j {
      FoldBoundLe(i + 1, j, n);
    } else if j < i {
      FoldBoundLe(j + 1, i, n);
    }
  }

  /** The five window sizes of a class add up to its size. */
  lemma FoldTestSizes(n: nat)
    ensures (FoldBound(1, n) - FoldBound(0, n)) + (FoldBound(2, n) - FoldBound(1, n))
          + (FoldBound(3, n) - FoldBound(2, n)) + (FoldBound(4, n) - FoldBound(3, n))
          + (FoldBound(5, n) - FoldBound(4, n)) == n
  {
    FoldBoundChain(n);
  }

  /**
   The holdout test part of a class (from `round(0.8n)` on) has at most
   (n+2)/5 documents, so two classes' test parts together never exceed
   `ceil(0.2 * N)` for their total N.
   */
  lemma HoldoutTestsWithinDenominator(a: nat, b: nat)
    ensures (a - RoundFourFifths(a)) + (b - RoundFourFifths(b)) <= CeilFifth(a + b)
  {
    var ta, tb := a - RoundFourFifths(a), b - RoundFourFifths(b);
    assert 5 * ta <= a + 2;
    assert 5 * tb <= b + 2;
  }

  /** With three classes the same bound fails: three classes of 3 documents test 3 documents against a denominator of 2. */
  lemma HoldoutTestsCanExceedDenominator()
    ensures 3 * (3 - RoundFourFifths(3)) > CeilFifth(9)
  {
  }

  /** A single cross-validation fold can test more documents than `ceil(0.2 * N)`: classes of 1 and 6 documents in fold 2. */
  lemma FoldTestsCanExceedDenominator()
    ensures (FoldBound(3, 1) - FoldBound(2, 1)) + (FoldBound(3, 6) - FoldBound(2, 6)) > CeilFifth(7)
  {
  }

  /**
   Evolution tests from `int(0.8 * n)` on: each class's test part is
   `ceil(n/5)`, and two of them exceed `ceil(0.2 * N)` by at most one.
   */
  lemma FloorTestsNearDenominator(a: nat, b: nat)
    ensures a - FloorFourFifths(a) == CeilFifth(a)
    ensures (a - FloorFourFifths(a)) + (b - FloorFourFifths(b)) <= CeilFifth(a + b) + 1
  {
  }

  /** The extra one is reached: two classes of one document test 2 documents against a denominator of 1. */
  lemma FloorTestsCanExceedDenominator()
    ensures (1 - FloorFourFifths(1)) + (1 - FloorFourFifths(1)) > CeilFifth(2)
  {
  }
}
