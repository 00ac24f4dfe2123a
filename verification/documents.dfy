/**
 `DataFile`: one labelled document reduced to its word list and bag of words,
 as each version of the classifier builds it from a file's content.
 */
module Documents {
  import opened Folds
  import opened Text
  import opened Bags

  datatype Document = Document(className: string, words: seq<string>, wordsCount: map<string, nat>)

  /** A document whose `wordsCount` is the bag of its `words`, as every constructor leaves it. */
  type DataFile = d: Document | d.wordsCount == BagOf(d.words) witness Document("", [], map[])

  /** The versions of the classifier, which prepare documents differently. */
  datatype Version = Evolution2 | Evolution | DynamicPair | Dynamic

  /** `load` (whitespace split) or `loadTagged` (token column of each line). */
  function Tokenise(content: string, isTagged: bool): seq<string>
  {
    if isTagged then LoadTagged(content) else SplitWhitespace(content)
  }

  /** Evolution2 folds case and strips punctuation before tokenising; the others use the raw text. */
  function Prepare(version: Version, content: string): string
  {
    if version.Evolution2? then StripPunctuation(Lower(content)) else content
  }

  /** Only Evolution2 and Evolution run `removeExceptionWords`. */
  predicate RemovesExceptions(version: Version)
  {
    version.Evolution2? || version.Evolution?
  }

  /** The tokens that survive `removeExceptionWords`, in the versions that run it. */
  function KeptWords(version: Version, tokens: seq<string>, exceptions: seq<string>): (words: seq<string>)
    ensures multiset(words) == multiset(tokens) - (if RemovesExceptions(version) then multiset(exceptions) else multiset{})
    ensures IsSubsequence(words, tokens)
  {
    if RemovesExceptions(version) then
      RemoveExceptionWordsKeepsOrder(tokens, exceptions);
      RemoveExceptionWords(tokens, exceptions)
    else
      SubsequenceReflexive(tokens);
      tokens
  }

  /**
   `DataFile.__init__`: prepare the content, tokenise it, drop the exception
   words (first occurrence per list entry), and count.
   */
  function NewDataFile(version: Version, className: string, fileContent: string, isTagged: bool,
                       exceptions: seq<string>): (d: DataFile)
    ensures d.className == className
    ensures var tokens := Tokenise(Prepare(version, fileContent), isTagged);
            && multiset(d.words) == multiset(tokens) - (if RemovesExceptions(version) then multiset(exceptions) else multiset{})
            && IsSubsequence(d.words, tokens)
  {
    var words := KeptWords(version, Tokenise(Prepare(version, fileContent), isTagged), exceptions);
    Document(className, words, BagOf(words))
  }

  /** Every character of an Evolution2 word is lower-case (ASCII) and not punctuation. */
  lemma Evolution2WordsAreClean(className: string, fileContent: string, isTagged: bool, exceptions: seq<string>)
    ensures var d := NewDataFile(Evolution2, className, fileContent, isTagged, exceptions);
            forall i, c :: 0 <= i < |d.words| && c in d.words[i] ==> !IsUpper(c) && !IsPunctuation(c)
  {
    var d := NewDataFile(Evolution2, className, fileContent, isTagged, exceptions);
    var text := StripPunctuation(Lower(fileContent));
    var tokens := Tokenise(text, isTagged);
    assert forall c :: c in text ==> !IsUpper(c) && !IsPunctuation(c) by {
      StripPunctuationCounts(Lower(fileContent));
      forall c | c in text
        ensures !IsUpper(c)
      {
        assert multiset(text)[c] > 0;
        assert multiset(Lower(fileContent))[c] > 0;
      }
    }
    if isTagged {
      LoadTaggedChars(text);
    } else {
      SplitWhitespaceChars(text);
    }
    forall i, c | 0 <= i < |d.words| && c in d.words[i]
      ensures !IsUpper(c) && !IsPunctuation(c)
    {
      assert d.words[i] in multiset(d.words);
      assert d.words[i] in multiset(tokens);
      var j :| 0 <= j < |tokens| && tokens[j] == d.words[i];
    }
  }

  /** `wordsSum = sum(wordsCount.values())`: the number of words kept. */
  ghost function WordsSum(d: DataFile): (n: nat)
    ensures n == |d.words|
  {
    BagSum(d.words);
    SumNat(d.wordsCount)
  }

  /** The first version's document: one message with its polarity flag. */
  datatype Message = Message(isGood: bool, fileLine: string, words: seq<string>,
                             wordsCount: map<string, nat>, sumWords: nat)

  /** `DataFile.__init__(fileLine, isGood)` of the first version. */
  ghost function NewMessage(fileLine: string, isGood: bool): (m: Message)
    ensures m.isGood == isGood && m.fileLine == fileLine
    ensures m.words == SplitWhitespace(fileLine)
    ensures forall i :: 0 <= i < |m.words| ==> IsWord(m.words[i])
    ensures forall i, c :: 0 <= i < |m.words| && c in m.words[i] ==> c in fileLine
    ensures forall w :: w in m.wordsCount <==> w in m.words
    ensures forall w :: w in m.wordsCount ==> 1 <= m.wordsCount[w] == multiset(m.words)[w]
    ensures m.sumWords == |m.words|
  {
    var words := SplitWhitespace(fileLine);
    SplitWhitespaceChars(fileLine);
    var counts := BagOf(words);
    BagSum(words);
    Message(isGood, fileLine, words, counts, SumNat(counts))
  }
}
