/**
 Bags of words: the `wordsCount` dictionary of a `DataFile`, and the
 exception-word removal that runs before it is built.
 */
module Bags {
  import opened Folds

  /**
   `calculateWordsCount`: `for word in words: wordsCount[word] += 1`. Its keys are
   exactly the distinct words, each counted as often as it occurs.
   */
  function BagOf(words: seq<string>): (r: map<string, nat>)
    ensures forall w :: w in r <==> w in words
    ensures forall w :: w in r ==> r[w] == multiset(words)[w] >= 1
    decreases |words|
  {
    if words == [] then map[]
    else
      var n := |words| - 1;
      var prev := BagOf(words[..n]);
      var w := words[n];
      assert words == words[..n] + [w];
      prev[w := (if w in prev then prev[w] else 0) + 1]
  }

  /** The occurrence counts of `tokens`, listed over a vocabulary. */
  function CountsOver(vocabulary: set<string>, tokens: seq<string>): map<string, nat>
  {
    map w | w in vocabulary :: multiset(tokens)[w]
  }

  /** Over any vocabulary holding every token, the counts add up to the number of tokens. */
  lemma {:induction false} CountsOverSum(vocabulary: set<string>, tokens: seq<string>)
    requires forall w :: w in tokens ==> w in vocabulary
    ensures SumNat(CountsOver(vocabulary, tokens)) == |tokens|
    decreases |tokens|
  {
    if tokens == [] {
      SumNatZero(CountsOver(vocabulary, tokens));
    } else {
      var n := |tokens| - 1;
      CountsOverStep(vocabulary, tokens);
      CountsOverSum(vocabulary, tokens[..n]);
    }
  }

  /** Dropping the last token takes one off the sum of the counts. */
  lemma CountsOverStep(vocabulary: set<string>, tokens: seq<string>)
    requires tokens != [] && tokens[|tokens| - 1] in vocabulary
    ensures SumNat(CountsOver(vocabulary, tokens)) == SumNat(CountsOver(vocabulary, tokens[..|tokens| - 1])) + 1
  {
    var n := |tokens| - 1;
    var x := tokens[n];
    var prev := CountsOver(vocabulary, tokens[..n]);
    CountsOverLast(vocabulary, tokens);
    SumNatUpdate(prev, x, prev[x] + 1);
  }

  /** The last token adds one to its own count and changes no other. */
  lemma CountsOverLast(vocabulary: set<string>, tokens: seq<string>)
    requires tokens != [] && tokens[|tokens| - 1] in vocabulary
    ensures var prev := CountsOver(vocabulary, tokens[..|tokens| - 1]);
            var x := tokens[|tokens| - 1];
            CountsOver(vocabulary, tokens) == prev[x := prev[x] + 1]
  {
    var n := |tokens| - 1;
    assert tokens == tokens[..n] + [tokens[n]];
    assert multiset(tokens) == multiset(tokens[..n]) + multiset{tokens[n]};
  }

  /** A document's counts add up to its length (`wordsSum == len(words)`). */
  lemma BagSum(words: seq<string>)
    ensures SumNat(BagOf(words)) == |words|
  {
    var vocabulary := set w | w in words;
    assert BagOf(words) == CountsOver(vocabulary, words);
    CountsOverSum(vocabulary, words);
  }

  /** The distinct words of a list. */
  function WordSet(words: seq<string>): (r: set<string>)
    ensures forall t :: t in r <==> t in words
  {
    set t | t in words
  }

  /** A bag has one key per distinct word and its counts add up to the number of words. */
  lemma BagSize(words: seq<string>)
    ensures SumNat(BagOf(words)) == |words|
    ensures |BagOf(words)| == |WordSet(words)|
  {
    var bag := BagOf(words);
    BagSum(words);
    assert bag.Keys == WordSet(words);
  }

  /** The position of the first occurrence of `x`. */
  function IndexOf(words: seq<string>, x: string): (i: nat)
    requires x in words
    ensures i < |words| && words[i] == x && x !in words[..i]
  {
    if words[0] == x then 0
    else
      assert words == [words[0]] + words[1..];
      1 + IndexOf(words[1..], x)
  }

  /** `words.remove(x)` with its `ValueError` swallowed: the first `x`, if any, is deleted. */
  function RemoveFirst(words: seq<string>, x: string): (r: seq<string>)
    ensures x !in words ==> r == words
    ensures x in words ==> exists i :: 0 <= i < |words| && words[i] == x && x !in words[..i]
                                       && r == words[..i] + words[i + 1..]
    ensures multiset(r) == multiset(words) - multiset{x}
  {
    if x in words then
      var i := IndexOf(words, x);
      assert words == words[..i] + [x] + words[i + 1..];
      words[..i] + words[i + 1..]
    else words
  }

  /**
   `removeExceptionWords`: each entry of the exception list, in order, deletes
   the first remaining occurrence of that word. Copies are removed only as
   often as the list names them.
   */
  function RemoveExceptionWords(words: seq<string>, exceptions: seq<string>): (r: seq<string>)
    ensures multiset(r) == multiset(words) - multiset(exceptions)
    ensures |r| <= |words|
    decreases |exceptions|
  {
    if exceptions == [] then words
    else
      var x := exceptions[0];
      assert exceptions == [x] + exceptions[1..];
      var r := RemoveExceptionWords(RemoveFirst(words, x), exceptions[1..]);
      SubtractInTurn(multiset(words), x, multiset(exceptions[1..]));
      r
  }

  /** Taking away `x` and then `rest` takes away `x` and `rest` together. */
  lemma SubtractInTurn(a: multiset<string>, x: string, rest: multiset<string>)
    ensures (a - multiset{x}) - rest == a - (multiset{x} + rest)
  {
  }

  /** `a` is `b` with some positions deleted: `idx` lists, in increasing order, the kept positions. */
  ghost predicate KeptAt(a: seq<string>, b: seq<string>, idx: seq<nat>)
  {
    && |idx| == |a|
    && (forall k :: 0 <= k < |idx| ==> idx[k] < |b| && a[k] == b[idx[k]])
    && (forall k, l :: 0 <= k < l < |idx| ==> idx[k] < idx[l])
  }

  ghost predicate IsSubsequence(a: seq<string>, b: seq<string>)
  {
    exists idx :: KeptAt(a, b, idx)
  }

  lemma SubsequenceTransitive(a: seq<string>, b: seq<string>, c: seq<string>)
    requires IsSubsequence(a, b) && IsSubsequence(b, c)
    ensures IsSubsequence(a, c)
  {
    var i1 :| KeptAt(a, b, i1);
    var i2 :| KeptAt(b, c, i2);
    var idx := seq(|a|, k requires 0 <= k < |a| => i2[i1[k]]);
    assert KeptAt(a, c, idx);
  }

  lemma DeleteAtKeepsOrder(words: seq<string>, i: nat)
    requires i < |words|
    ensures IsSubsequence(words[..i] + words[i + 1..], words)
  {
    var r := words[..i] + words[i + 1..];
    var idx := seq(|r|, k requires 0 <= k < |r| => if k < i then k else k + 1);
    forall k | 0 <= k < |idx|
      ensures idx[k] < |words| && r[k] == words[idx[k]]
    {
      if k < i {
        assert r[k] == words[..i][k];
      } else {
        assert r[k] == words[i + 1..][k - i];
      }
    }
    assert KeptAt(r, words, idx);
  }

  lemma SubsequenceReflexive(words: seq<string>)
    ensures IsSubsequence(words, words)
  {
    var idx := seq(|words|, k requires 0 <= k < |words| => k);
    assert KeptAt(words, words, idx);
  }

  lemma RemoveFirstKeepsOrder(words: seq<string>, x: string)
    ensures IsSubsequence(RemoveFirst(words, x), words)
  {
    if x in words {
      DeleteAtKeepsOrder(words, IndexOf(words, x));
    } else {
      SubsequenceReflexive(words);
    }
  }

  /** The words that survive exception removal keep their relative order. */
  lemma {:induction false} RemoveExceptionWordsKeepsOrder(words: seq<string>, exceptions: seq<string>)
    ensures IsSubsequence(RemoveExceptionWords(words, exceptions), words)
    decreases |exceptions|
  {
    if exceptions == [] {
      SubsequenceReflexive(words);
    } else {
      var once := RemoveFirst(words, exceptions[0]);
      RemoveFirstKeepsOrder(words, exceptions[0]);
      RemoveExceptionWordsKeepsOrder(once, exceptions[1..]);
      SubsequenceTransitive(RemoveExceptionWords(words, exceptions), once, words);
    }
  }
}
