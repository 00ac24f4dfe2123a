# Naive Bayes text classifier, modelled in Dafny

This project models the pure logic shared by the five versions of a Naive
Bayes sentiment classifier for labelled text files: BayesClassification,
Evolution, Evolution2, DynamicPair and Dynamic.

**Documents (`DataFile`).** A document turns a file's text into a word list
and a bag of words. It tokenises either by whitespace or, for "tagged" corpora,
by taking field 2 of each tab-separated line. Evolution2 first lower-cases the
text and strips ASCII punctuation. Evolution and Evolution2 then remove the
stop words: one occurrence per entry of the stop-word list.

**Data set (`DataSet`).** The data set keeps the documents of each class and,
in Evolution2, an inventory of every word loaded.

**Training.** Each class's training documents are reduced to one table of
counts. Each count is smoothed by add one, `(c + 1) / (Σc + |V|)`.
- Evolution and Evolution2 seed every class table with the global
  inventory.
- DynamicPair and Dynamic count only the words the class's own documents
  contain.

**Classification.**
- The likelihood of a class is the product of `p ** count` over the table's
  words that the document contains.
- The named versions answer the first class of greatest likelihood.
- Dynamic answers the greatest likelihood itself.

**Evaluation.**
- Evolution2 runs a round(80%) / 20% holdout and a five-fold cross-validation.
  It divides the successes by `ceil(0.2 · N)`.
- Evolution trains on the first `int(0.8 n)` documents and uses the same
  denominator.
- DynamicPair and Dynamic divide by N, the number of all documents.

Probabilities are exact `real`s and counts are unbounded naturals.
Python's `round(0.8 * n)`, `int(0.8 * n)`, `ceil(0.2 * N)` and `round(i * n / 5)` are
written as the integer formulas `(4n + 2) / 5`, `4n / 5`, `(N + 4) / 5` and
`(2in + 5) / 10`. None of these ever falls on a tie.

Modules, in dependency order:

| module | what it holds |
|---|---|
| `Basics` | `Option` and `Pow` |
| `Folds` | sums and products over maps |
| `Text` | lower-casing, punctuation stripping, whitespace and tagged tokenising |
| `Bags` | bags of words and exception-word removal |
| `Documents` | `DataFile` and the first version's `DataFile` |
| `DataSets` | loading and the inventory |
| `Partition` | rounding, holdout and fold boundaries |
| `Training` | `reduceWordsCount`, smoothing and `train` / `calculateProbability` |
| `Classifier` | likelihood, arg-max and `max` |
| `Evaluation` | `test`, `evaluate`, `division`, `crossValidation` and Evolution's run |
| `DynamicEvaluation` | DynamicPair's and Dynamic's accumulating tests |

Where the documentation of the system and the code disagree, the model follows the code.
- Stop-word removal deletes only the first occurrence of each listed word, not
  every occurrence (`list.remove`). A missing stop-word file raises; it is not
  tolerated.
- Evolution2's holdout splits at `round(0.8 n)`, not at `int(0.8 n)`.
- Evolution and Evolution2 seed each class table with the global inventory, so
  every class table has the same keys and, in exact arithmetic, each sums to 1
  (floating-point rounding aside). A word seen by
  no training document of a class still gets `1 / factor`.
- A likelihood can be exactly 1.0, for a document that shares no word with the
  table. The Dynamic answer is then 1.0, which equals class index 1.
- Each fold of Evolution2's cross-validation divides by `ceil(0.2 N)` whatever
  the size of its test window. A single fold's accuracy can therefore exceed 1
  (`Partition.FoldTestsCanExceedDenominator`), while the mean of the five is at
  most 1 (`Evaluation.CrossValidationAtMostOne`).
- Evolution's test parts, from `int(0.8 n)` on, can together hold one document
  more than `ceil(0.2 N)` (`Partition.FloorTestsCanExceedDenominator`), so the
  bound proved for its successes is `ceil(0.2 N) + 1`
  (`Evaluation.EvolutionSuccessBound`), not `ceil(0.2 N)`.
- Dynamic compares the answer of `classify`, a likelihood in (0, 1], with the
  class index. In exact arithmetic only documents of class index 1 can ever
  count as successes, and only when the greatest likelihood is exactly 1.0.
  With floats this fails (see "## Left out"). `test` also visits every
  document, not only the test part.
- DynamicPair never resets `testSuccess`. Successive tests accumulate, and a
  class appears as a key only after its first success.
- Dynamic's `calculateProbability` writes into the existing tables. Entries
  from an earlier training stay in place.
- `classify` tests `not maxClass`. While the choice is a class named by the
  empty string, the next class replaces it whatever the two likelihoods
  (`Classifier.EmptyNameIsPassedOver`), so "" can be the answer only when it
  is the last class. All versions use the classes `positive` and `negative`, so this never
  happens there.

## Model

| member | source | states |
|---|---|---|
| Basics.Pow | BayesClassificationEvolution2.py:413 | `pow(p, k)`: 1 for k = 0, 1 for p = 1, and in (0, 1] whenever p is in (0, 1] |
| Basics.PowOne | BayesClassificationEvolution2.py:413 | `pow(p, 1)` is p |
| Basics.PowAdd | BayesClassificationEvolution2.py:413 | exponents add: `pow(p, a + b) == pow(p, a) * pow(p, b)` |
| Folds.FoldRemove | BayesClassificationEvolution2.py:410-413 | for an operation whose left operands trade places, any key's value can be taken first: the fold does not depend on the order of the keys |
| Folds.ProductSplit | BayesClassificationEvolution2.py:410-413 | `probability *= factor` over a dict: any factor can be split off the product, whatever the iteration order |
| Text.LowerChar | BayesClassificationEvolution2.py:49 | `lower()` on one ASCII character: upper case moves down by 32, every other character is kept |
| Text.Lower | BayesClassificationEvolution2.py:49 | the lower-cased text has the same length, no upper-case letter, each character is its own lower case, and every other character stays in place |
| Text.LowerIdempotent | BayesClassificationEvolution2.py:49 | lower-casing twice is lower-casing once |
| Text.StripPunctuation | BayesClassificationEvolution2.py:116-123 | no punctuation character is left and the text does not grow |
| Text.StripPunctuationCounts | BayesClassificationEvolution2.py:116-123 | every punctuation character is removed and every other character keeps its number of occurrences |
| Text.StripPunctuationAppend | BayesClassificationEvolution2.py:116-123 | stripping works character by character: stripping a concatenation concatenates the stripped parts, so order is kept |
| Text.StripPunctuationUnchanged | BayesClassificationEvolution2.py:116-123 | the text is unchanged exactly when it holds no punctuation |
| Text.StripPunctuationIdempotent | BayesClassificationEvolution2.py:116-123 | stripping twice is stripping once |
| Text.DropSpaces | BayesClassificationEvolution2.py:86 | the result is a suffix of the input that starts with a non-space, the prefix dropped is all whitespace, and the input comes back unchanged when it does not start with a space |
| Text.WordPrefix | BayesClassificationEvolution2.py:86 | the longest space-free prefix: a prefix with no space, followed by a space or the end, non-empty when the input starts with a non-space |
| Text.SplitWhitespace | BayesClassification.py:47 | `str.split()`: every token is non-empty and contains no whitespace |
| Text.SplitAtSpace | BayesClassification.py:47 | a whitespace character separates tokens: splitting `a + c + b` splits a and b and concatenates the results |
| Text.SplitAllSpaces | BayesClassification.py:47 | a text of whitespace only gives no token |
| Text.SplitWord | BayesClassificationEvolution2.py:86 | a non-empty whitespace-free text is one token, itself |
| Text.SplitWhitespaceChars | BayesClassificationEvolution2.py:86 | every character of every token comes from the input |
| Text.SplitJoinWords | BayesClassificationEvolution.py:69 | splitting the words joined by single spaces gives the words back |
| Text.SplitOn | BayesClassificationEvolution2.py:94-96 | `str.split(sep)`: one more piece than separators, none containing the separator, all made of input characters |
| Text.JoinSplit | BayesClassificationEvolution2.py:94-96 | joining the pieces of a split with the separator rebuilds the text |
| Text.SplitJoin | BayesClassificationEvolution2.py:94-96 | splitting a join of separator-free pieces gives the pieces back |
| Text.FieldTwo | BayesClassificationEvolution2.py:95-98 | `line.split("\t")[2]`: present exactly when the line holds at least two tabs; tab-free and made of line characters |
| Text.TaggedTokens | BayesClassificationEvolution2.py:94-98 | at most one token per line, none containing a tab |
| Text.TaggedTokensLength | BayesClassificationDynamicPair.py:65-74 | exactly one token per line that has a field 2; the other lines are skipped |
| Text.TaggedTokensAppend | BayesClassificationEvolution.py:76-80 | lines are processed independently, in order: the tokens of two blocks of lines concatenate |
| Text.LoadTagged | BayesClassificationDynamic.py:66-75 | no token contains a tab or a newline |
| Text.LoadTaggedRoundTrip | BayesClassificationEvolution2.py:88-98 | for lines of at least three tab-separated fields, loading gives back field 2 of each line, in line order |
| Text.LoadTaggedChars | BayesClassificationEvolution2.py:88-98 | every character of every token comes from the content |
| Bags.BagOf | BayesClassificationEvolution2.py:125-133 | `calculateWordsCount`: the keys are exactly the words, and each value is the word's number of occurrences, at least 1 |
| Bags.BagSum | BayesClassificationDynamicPair.py:76-86 | the counts add up to the number of words |
| Bags.CountsOverSum | BayesClassificationEvolution2.py:268-274 | counts over a vocabulary holding every token add up to the number of tokens |
| Bags.IndexOf | BayesClassificationEvolution2.py:112 | the position `list.remove` deletes: the word is there and nowhere before |
| Bags.RemoveFirst | BayesClassificationEvolution2.py:111-114 | `list.remove(x)`: no change when x is absent, otherwise exactly the first occurrence is deleted, so one fewer x |
| Bags.RemoveExceptionWords | BayesClassificationEvolution2.py:110-114 | the words left are the words minus one occurrence per list entry (multiset difference), and the list does not grow |
| Bags.RemoveFirstKeepsOrder | BayesClassificationEvolution.py:87-91 | one removal keeps the other words in their order |
| Bags.RemoveExceptionWordsKeepsOrder | BayesClassificationEvolution.py:82-91 | the words left are a subsequence of the words given |
| Documents.NewDataFile | BayesClassificationEvolution2.py:39-77 | `DataFile.__init__` for every version: keeps the class name; the words are the tokens of the prepared text minus the exception words (Evolution2, Evolution only), in their order; the bag counts them |
| Documents.Evolution2WordsAreClean | BayesClassificationEvolution2.py:49-70 | no word of an Evolution2 document holds an upper-case letter or punctuation |
| Documents.WordsSum | BayesClassificationEvolution.py:58-61 | `wordsSum` equals the number of words left after exception removal |
| Documents.NewMessage | BayesClassification.py:34-55 | the first version's `DataFile`: flag and line kept, the words are exactly the whitespace split of the line (non-empty, whitespace-free), the bag counts them and `sumWords` is their number |
| DataSets.RecordWords | BayesClassificationEvolution2.py:251-252 | `inventory[word] = 0` for each word: old keys kept, the words added, each word's value 0 |
| DataSets.OfClass | BayesClassificationEvolution2.py:226-248 | the documents filed under one class all carry that class and are no more than the files visited |
| DataSets.OfClassCounts | BayesClassificationEvolution2.py:226-248 | each document of the class is filed as many times as it was visited, and a document of another class never |
| DataSets.OfClassMember | BayesClassificationEvolution2.py:226-248 | a document is filed under a class exactly when it was visited and carries that class |
| DataSets.OfClassAppend | BayesClassificationEvolution2.py:226-248 | filing is piecewise over the visit, so each class keeps its documents in visiting order |
| DataSets.LoadDataSet | BayesClassificationEvolution2.py:204-257 | `load`: a class has a list exactly when a visited file names it and it is listed; the list is its files in visiting order; the inventory is exactly the loaded words, all 0 |
| DataSets.InventoryWord | BayesClassificationEvolution.py:325-333 | `inventoryWord`: exactly the words of all loaded documents of all classes, each mapped to 0 |
| DataSets.LoadedInventory | BayesClassificationEvolution2.py:420-426 | the inventory kept while loading equals the one recomputed from the loaded documents |
| DataSets.LoadedConsistent | BayesClassificationEvolution2.py:250-252 | after loading, every word of every document is in the inventory |
| Training.ReduceWordsCount | BayesClassificationEvolution2.py:259-274 | seeded `reduceWordsCount`: the same keys as the seed, each count being its seed plus the word's occurrences in all documents |
| Training.ZeroTable | BayesClassificationEvolution2.py:420-426 | `inventoryWord`: every inventory word, and nothing else, with count 0 |
| Training.SeededIsCountsOver | BayesClassificationEvolution.py:225-240 | from the zero inventory, the counts are the occurrences of each inventory word in the documents |
| Training.SeededCountsSum | BayesClassificationEvolution.py:225-240 | from the zero inventory, the counts add up to the number of words and there is one per inventory word |
| Training.ReduceWordsCountDynamic | BayesClassificationDynamicPair.py:185-203 | unseeded `reduceWordsCount`: exactly the words of the documents, each with its occurrences, at least 1 |
| Training.ReduceDynamicIsBag | BayesClassificationDynamic.py:177-195 | the unseeded reduction is the bag of all the documents' words together |
| Training.Smooth | BayesClassificationEvolution2.py:354-356 | add-one smoothing keeps the table's words as keys |
| Training.SmoothInUnit | BayesClassificationDynamicPair.py:181-183 | every smoothed probability is in (0, 1] |
| Training.SmoothSumsToOne | BayesClassificationDynamicPair.py:181-183 | the smoothed probabilities of a non-empty table sum to 1 |
| Training.SmoothMonotone | BayesClassificationEvolution2.py:354-356 | a word counted less never gets a higher probability |
| Training.SeededTable | BayesClassificationEvolution.py:208-220 | a table trained from the inventory has exactly the inventory's words, each in (0, 1] |
| Training.SeededClosedForm | BayesClassificationEvolution.py:214-220 | seeded training gives a word (occurrences + 1) / (tokens + inventory size) |
| Training.DynamicTable | BayesClassificationDynamicPair.py:174-183 | an unseeded table has exactly the training words, each in (0, 1], and is empty when there are none |
| Training.DynamicClosedForm | BayesClassificationDynamicPair.py:174-183 | an unseeded table gives each word of its training documents (occurrences + 1) / (number of words + number of distinct words) |
| Training.Train | BayesClassificationEvolution2.py:334-359 | `train`: one table per class, each keyed by the whole inventory, every probability in (0, 1] |
| Training.TrainClosedForm | BayesClassificationEvolution2.py:346-356 | Evolution2 gives a word of class c (occurrences in c's training words + 1) / (c's training words + inventory size) |
| Training.TrainSumsToOne | BayesClassificationEvolution2.py:354-356 | each class's probabilities sum to 1 |
| Training.FloorHead | BayesClassificationEvolution.py:211-214 | the training part is the first `int(0.8 n)` documents |
| Training.LoadedCovered | BayesClassificationEvolution.py:233-238 | the recomputed inventory holds every word of the class's documents, so `wordsAll[word] += value` never raises |
| Training.CalculateProbability | BayesClassificationEvolution.py:202-223 | Evolution's tables: one per class, keyed by every loaded word, every probability in (0, 1] |
| Training.CalculateProbabilitySumsToOne | BayesClassificationEvolution.py:218-220 | each Evolution table sums to 1 once any word is loaded |
| Training.CalculateProbabilityPair | BayesClassificationDynamicPair.py:168-183 | DynamicPair's tables: one per class, keyed by the words of its first `int(0.8 n)` documents, every probability in (0, 1] |
| Training.PairSumsToOne | BayesClassificationDynamicPair.py:181-183 | a DynamicPair table with training words sums to 1 |
| Training.CalculateProbabilityDynamic | BayesClassificationDynamic.py:159-175 | Dynamic writes each index's training words into the existing tables: new probabilities in (0, 1], other entries untouched |
| Training.DynamicTablesInUnit | BayesClassificationDynamic.py:122-175 | from the empty tables `__init__` creates, every probability is in (0, 1] |
| Classifier.Factors | BayesClassificationEvolution.py:314-318 | the factors are the table words the document contains, each in (0, 1] when the table's probabilities are |
| Classifier.Likelihood | BayesClassificationEvolution2.py:405-413 | the likelihood of a class lies in (0, 1] whenever its table's probabilities do |
| Classifier.LikelihoodFactor | BayesClassificationEvolution2.py:410-413 | each table word the document holds contributes exactly the factor `pow(p, count)`: the likelihood is that factor times the likelihood over the rest of the table, whichever word the loop meets first |
| Classifier.LikelihoodOfUnseen | BayesClassificationDynamicPair.py:255-261 | a document sharing no word with the table keeps the initial likelihood 1 |
| Classifier.LikelihoodLocal | BayesClassificationDynamic.py:250-255 | only the entries of the document's words matter: tables agreeing on them give the same likelihood |
| Classifier.ArgMax | BayesClassificationEvolution2.py:406-418 | the `maxClass` loop: no answer only without classes; with named classes the answer is at least every class and strictly more than every earlier one |
| Classifier.ArgMaxIsFirstMax | BayesClassificationEvolution2.py:415-416 | among named classes, the answer is exactly the first position of greatest probability |
| Classifier.EmptyNameIsPassedOver | BayesClassificationEvolution2.py:415 | a class named "" is replaced by the next class even when it is more likely |
| Classifier.Classify | BayesClassificationEvolution2.py:396-418 | `classify`: a listed class, of likelihood at least every class's |
| Classifier.ClassifyFirstMax | BayesClassificationDynamicPair.py:263-266 | the class answered is the first one of greatest likelihood, so ties go to the earliest class |
| Classifier.MaxOf | BayesClassificationDynamic.py:257 | `max`: one of the values and at least every value; none only for an empty list |
| Classifier.MaxOfUnique | BayesClassificationDynamic.py:257 | a value bounding all others is what `max` returns |
| Classifier.ClassifyDynamic | BayesClassificationDynamic.py:236-257 | Dynamic's `classify`: one of the class likelihoods and at least every one |
| Classifier.ClassifyDynamicInUnit | BayesClassificationDynamic.py:245-257 | the Dynamic answer is in (0, 1] |
| Evaluation.Count | BayesClassificationEvolution2.py:377-379 | the number of matches is the multiplicity of the value in the list: at most the length, equal to it exactly when all match, 0 exactly when none does |
| Evaluation.Test | BayesClassificationEvolution2.py:361-379 | `test`: reset every class to 0, then set it to the number of its test documents that `classify` answers with it: at most its test documents, all of them exactly when every one is classified right |
| Evaluation.Evaluate | BayesClassificationEvolution2.py:381-394 | `evaluate(0.2)`: defined exactly when a document is loaded, never negative |
| Evaluation.EvaluateAtMostOne | BayesClassificationEvolution.py:294 | the accuracy is at most 1 exactly when the successes fit in `ceil(0.2 N)` |
| Evaluation.HoldoutTrain | BayesClassificationEvolution2.py:285-287 | each class trains on its first `round(0.8 n)` documents |
| Evaluation.HoldoutTest | BayesClassificationEvolution2.py:285-288 | each class tests the rest, so training and test parts concatenate to the class list |
| Evaluation.HoldoutCovered | BayesClassificationEvolution2.py:290 | every training word is in the inventory, so `train` never raises |
| Evaluation.HoldoutSuccess | BayesClassificationEvolution2.py:290-291 | after `division`'s test, each class succeeds at most once per test document |
| Evaluation.Division | BayesClassificationEvolution2.py:276-292 | `division`: no result exactly where Python raises, a listed class without documents or no documents at all |
| Evaluation.HoldoutSuccessBound | BayesClassificationEvolution2.py:285-292 | for two classes, the successes fit in `ceil(0.2 N)` |
| Evaluation.DivisionAtMostOne | BayesClassificationEvolution2.py:276-292 | for two classes, the holdout accuracy is at most 1 |
| Evaluation.LoadedDivisionAtMostOne | BayesClassificationEvolution2.py:174 | for the data set `load` builds over `positive` and `negative`, the holdout accuracy is at most 1 |
| Evaluation.FoldTrainData | BayesClassificationEvolution2.py:310-318 | fold i trains each class on the documents outside its test window |
| Evaluation.FoldTestData | BayesClassificationEvolution2.py:320 | fold i tests each class's window `[round(i n / 5), round((i + 1) n / 5))` |
| Evaluation.FoldCovered | BayesClassificationEvolution2.py:328 | every fold's training words are in the inventory |
| Evaluation.FoldSuccess | BayesClassificationEvolution2.py:328-329 | each class succeeds at most once per document of its window |
| Evaluation.FoldMean | BayesClassificationEvolution2.py:300-332 | the running `result += evaluate(0.2) / 5` is the total successes over `5 · ceil(0.2 N)` |
| Evaluation.FoldCountsCover | BayesClassificationEvolution2.py:304-320 | over the five folds, each document of each class is tested exactly once |
| Evaluation.FoldCountsWithin | BayesClassificationEvolution2.py:304-330 | the five folds together succeed at most once per loaded document |
| Evaluation.DocCountIsTotal | BayesClassificationEvolution2.py:392 | over distinct classes holding every loaded class, the documents counted class by class are all N |
| Evaluation.CrossValidation | BayesClassificationEvolution2.py:294-332 | `crossValidation`: no result exactly where Python raises |
| Evaluation.CrossValidationAtMostOne | BayesClassificationEvolution2.py:294-332 | over distinct classes, the cross-validation mean is at most 1 |
| Evaluation.LoadedCrossValidationAtMostOne | BayesClassificationEvolution2.py:174 | for the data set `load` builds, the cross-validation mean is at most 1 |
| Evaluation.FloorTest | BayesClassificationEvolution.py:280-284 | Evolution tests each class from `int(0.8 n)` on |
| Evaluation.EvolutionSuccess | BayesClassificationEvolution.py:271-286 | Evolution's `test`: each class succeeds at most `ceil(0.2 n)` times |
| Evaluation.EvolutionRun | BayesClassificationEvolution.py:262-296 | `train(tab)`, `test(tab)`, `evaluate()`: no result exactly where Python raises |
| Evaluation.EvolutionSuccessBound | BayesClassificationEvolution.py:280-294 | for two classes the successes exceed `ceil(0.2 N)` by at most one |
| Partition.RoundFourFifths | BayesClassificationEvolution2.py:287 | `round(0.8 n)` is within a half of `0.8 n` and at most n |
| Partition.FloorFourFifths | BayesClassificationEvolution.py:211 | `int(0.8 n)` is the floor of `0.8 n`, at most n |
| Partition.CeilFifth | BayesClassificationEvolution2.py:392 | `ceil(0.2 N)` is the ceiling of `N / 5`, 0 exactly when N is |
| Partition.FoldBound | BayesClassificationEvolution2.py:316-320 | `round(i · n / 5)` is within a half of `i · n / 5` |
| Partition.FoldBoundsMonotone | BayesClassificationEvolution2.py:304-320 | the fold boundaries start at 0, end at n and never decrease |
| Partition.FoldTest | BayesClassificationEvolution2.py:320 | the test window is as long as the gap between its boundaries |
| Partition.FoldTrainIsComplement | BayesClassificationEvolution2.py:315-320 | the training part is the documents before and after the window, and putting the window back between them rebuilds the list |
| Partition.FoldTestsCover | BayesClassificationEvolution2.py:304-320 | the five test windows concatenate to the whole list |
| Partition.FoldOfPosition | BayesClassificationEvolution2.py:320 | every position lies in some fold's window |
| Partition.FoldOfPositionUnique | BayesClassificationEvolution2.py:320 | and in one window only |
| Partition.FoldTestSizes | BayesClassificationEvolution2.py:320 | the window sizes add up to n |
| Partition.HoldoutTestsWithinDenominator | BayesClassificationEvolution2.py:288-292 | two classes' holdout test parts together fit in `ceil(0.2 N)` |
| Partition.HoldoutTestsCanExceedDenominator | BayesClassificationEvolution2.py:288-292 | with three classes of three documents, the test parts exceed `ceil(0.2 N)` |
| Partition.FoldTestsCanExceedDenominator | BayesClassificationEvolution2.py:320-330 | one fold's windows can exceed `ceil(0.2 N)`, for classes of 1 and 6 documents in the third fold |
| Partition.FloorTestsNearDenominator | BayesClassificationEvolution.py:280-294 | Evolution's test part of a class is `ceil(0.2 n)` long, and two classes' parts exceed `ceil(0.2 N)` by at most one |
| Partition.FloorTestsCanExceedDenominator | BayesClassificationEvolution.py:280-294 | with one document per class, the test parts exceed `ceil(0.2 N)` |
| DynamicEvaluation.Credit | BayesClassificationDynamicPair.py:226-230 | `testSuccess[c] += 1` or `= 1` on `KeyError`: the key appears only on a success, the other classes are untouched |
| DynamicEvaluation.CreditSum | BayesClassificationDynamicPair.py:226-230 | crediting k successes adds k to the total |
| DynamicEvaluation.TestPairOver | BayesClassificationDynamicPair.py:214-230 | DynamicPair's `test` only adds to what `testSuccess` already held |
| DynamicEvaluation.TestPairSum | BayesClassificationDynamicPair.py:214-230 | a test adds exactly its successes to the running total |
| DynamicEvaluation.TestPairFromEmpty | BayesClassificationDynamicPair.py:118 | from the empty `testSuccess`, a class is a key exactly when it succeeds, with its number of successes |
| DynamicEvaluation.EvaluatePair | BayesClassificationDynamicPair.py:232-239 | the successes over all N documents: defined exactly when N > 0, never negative |
| DynamicEvaluation.EvaluatePairAtMostOne | BayesClassificationDynamicPair.py:238 | the accuracy is at most 1 exactly when the successes are at most N |
| DynamicEvaluation.PairRun | BayesClassificationDynamicPair.py:205-239 | `train`, `test`, `evaluate`: no result exactly where Python raises |
| DynamicEvaluation.PairSuccess | BayesClassificationDynamicPair.py:205-230 | after `train` and one `test`, `testSuccess` sums to its old total plus the successes of each class's test documents |
| DynamicEvaluation.PairSuccessWithin | BayesClassificationDynamicPair.py:222-230 | after one test from empty, each class succeeds at most once per test document, those from `int(0.8 n)` on |
| DynamicEvaluation.PairRunBound | BayesClassificationDynamicPair.py:222-238 | after one test from empty, the accuracy is at most the test documents over N |
| DynamicEvaluation.PairRunAtMostOne | BayesClassificationDynamicPair.py:214-239 | after one test from empty, the accuracy is at most 1 |
| DynamicEvaluation.TestDynamic | BayesClassificationDynamic.py:206-221 | Dynamic's `test` adds to `testSuccess`, for every class index, the number of that index's documents whose answer equals the index |
| DynamicEvaluation.DynamicMatchIsOne | BayesClassificationDynamic.py:220 | a likelihood answer can equal only the class index 1 |
| DynamicEvaluation.TestDynamicOnlySecond | BayesClassificationDynamic.py:218-221 | a test adds at most the number of documents of class index 1 |
| DynamicEvaluation.DynamicUnseenAnswersOne | BayesClassificationDynamic.py:250-257 | a document sharing no word with some table is answered 1.0 |
| DynamicEvaluation.EvaluateDynamic | BayesClassificationDynamic.py:223-234 | the successes over all documents: defined exactly when there is one |
| DynamicEvaluation.DocumentsInAt | BayesClassificationDynamic.py:228-230 | every class index's documents are counted in the total |
| DynamicEvaluation.DynamicRun | BayesClassificationDynamic.py:197-234 | `train`, `test`, `evaluate`: no result exactly when no document is loaded |
| DynamicEvaluation.DynamicRunBound | BayesClassificationDynamic.py:206-234 | from 0 successes, the accuracy is at most the documents of class index 1 over all documents |

## Left out

- File reading, directory walking (`os.walk`, `os.listdir`) and the recursion over sub-directories are I/O. The loader is given the documents in the order it visits them.
- Dynamic's directory discovery is I/O too, and with it the placement of documents at class indices. `classIndex` restarts at 0 for every class directory and counts the walk's sub-directories, so files placed directly in each class directory all land at index 0. The model takes the per-index document lists as given.
- Reading and splitting the stop-word file (`codecs.open`, `split("\r\n")`) is I/O. The list of stop words is a parameter.
- `random.shuffle` of the file names: document order is an input.
- Floating point: probabilities are exact reals, so likelihood underflow to 0.0 and rounding inside `round`, `int` and `ceil` are not modelled.
- Text.LowerChar: models `str.lower()` on ASCII letters only; other Unicode case mappings are not modelled.
- Evolution's `division` calls `train` and `test` with one argument too many, and its `crossValidation` and main block call them without their `tab` argument; each call raises `TypeError`. These are not modelled; `Evaluation.EvolutionRun` is the run those calls intend, and `tab` has no effect.
- `__repr__`, debug printing, the main blocks and the first version's `DataSet` (which only files documents by directory) are not modelled.
- Floating-point underflow in Dynamic: a likelihood of many small factors can round to 0.0, and `0.0 == 0` holds in Python, so a document at class index 0 counts as a success when every likelihood underflows (BayesClassificationDynamic.py:220, :257). In exact arithmetic likelihoods are never 0, so `DynamicEvaluation.DynamicMatchIsOne` and the bounds built on it hold only for exact arithmetic.
- Evaluation.DivisionAtMostOne: proved for two distinct classes, the configuration every version fixes. With three or more classes the bound fails (`Partition.HoldoutTestsCanExceedDenominator`).
- Evaluation.HoldoutSuccessBound: proved for two distinct classes, as above.
- Evaluation.EvolutionSuccessBound: proved for two distinct classes.
- DynamicEvaluation.PairRunAtMostOne: stated for a `testSuccess` that starts empty, as after loading. Repeated tests accumulate without bound.
- DynamicEvaluation.DynamicRunBound: stated for `testSuccess` starting at 0, as after loading.
