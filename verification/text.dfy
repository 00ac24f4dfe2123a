/**
 Character-level text handling done by `DataFile` before counting: case
 folding, punctuation stripping, whitespace tokenisation (`str.split()`),
 splitting on one separator character (`str.split("\n")`, `str.split("\t")`),
 and the extraction of the token column of a tagged file.
 */
module Text {
  import opened Basics

  /** The characters Python's `str.isspace()` accepts; `str.split()` breaks on runs of them. */
  predicate IsSpace(c: char)
  {
    var n := c as int;
    || 9 <= n <= 13 || 28 <= n <= 32 || n == 0x85 || n == 0xA0 || n == 0x1680
    || 0x2000 <= n <= 0x200A || n == 0x2028 || n == 0x2029 || n == 0x202F
    || n == 0x205F || n == 0x3000
  }

  /** Python's `string.punctuation`: the 32 ASCII punctuation characters. */
  const Punctuation: string := @"!""#$%&'()*+,-./:;<=>?@[\]^_`{|}~"

  predicate IsPunctuation(c: char)
  {
    c in Punctuation
  }

  predicate IsUpper(c: char)
  {
    'A' <= c <= 'Z'
  }

  /** Case folding of one character, restricted to the ASCII letters. */
  function LowerChar(c: char): (r: char)
    ensures !IsUpper(r)
    ensures IsUpper(c) ==> r as int == c as int + 32
    ensures !IsUpper(c) ==> r == c
  {
    if IsUpper(c) then (c as int - 'A' as int + 'a' as int) as char else c
  }

  /** `content.lower()` (ASCII letters only). */
  function Lower(s: string): (r: string)
    ensures |r| == |s|
    ensures forall i :: 0 <= i < |r| ==> !IsUpper(r[i])
    ensures forall i :: 0 <= i < |s| && !IsUpper(s[i]) ==> r[i] == s[i]
    ensures forall i :: 0 <= i < |s| ==> r[i] == LowerChar(s[i])
  {
    seq(|s|, i requires 0 <= i < |s| => LowerChar(s[i]))
  }

  /** Folding case twice is folding it once. */
  lemma LowerIdempotent(s: string)
    ensures Lower(Lower(s)) == Lower(s)
  {
  }

  /**
   `re.sub('[%s]' % re.escape(string.punctuation), '', content)`: every
   punctuation character is deleted, every other character is kept.
   */
  function StripPunctuation(s: string): (r: string)
    ensures |r| <= |s|
    ensures forall c :: c in r ==> !IsPunctuation(c)
    decreases |s|
  {
    if s == [] then []
    else (if IsPunctuation(s[0]) then [] else [s[0]]) + StripPunctuation(s[1..])
  }

  /** Exactly the punctuation characters are deleted: every other character keeps its count. */
  lemma {:induction false} StripPunctuationCounts(s: string)
    ensures forall c :: multiset(StripPunctuation(s))[c] == if IsPunctuation(c) then 0 else multiset(s)[c]
    decreases |s|
  {
    if s != [] {
      assert s == [s[0]] + s[1..];
      StripPunctuationCounts(s[1..]);
    }
  }

  /** Stripping works piecewise, so the kept characters stay in their order. */
  lemma {:induction false} StripPunctuationAppend(a: string, b: string)
    ensures StripPunctuation(a + b) == StripPunctuation(a) + StripPunctuation(b)
    decreases |a|
  {
    if a == [] {
      assert a + b == b;
    } else {
      StripPunctuationAppend(a[1..], b);
      StripPunctuationAppendStep(a[0], a[1..], b);
      HeadTail(a, b);
      assert a == [a[0]] + a[1..];
    }
  }

  /** The step of `StripPunctuationAppend`: one more character in front of `x`. */
  lemma StripPunctuationAppendStep(c: char, x: string, b: string)
    requires StripPunctuation(x + b) == StripPunctuation(x) + StripPunctuation(b)
    ensures StripPunctuation([c] + (x + b)) == StripPunctuation([c] + x) + StripPunctuation(b)
  {
    var head: string := if IsPunctuation(c) then [] else [c];
    var p, q := StripPunctuation(x), StripPunctuation(b);
    calc {
      StripPunctuation([c] + (x + b));
      { StripPunctuationCons(c, x + b); }
      head + StripPunctuation(x + b);
      head + (p + q);
      { assert head + (p + q) == (head + p) + q; }
      (head + p) + q;
      { StripPunctuationCons(c, x); }
      StripPunctuation([c] + x) + q;
    }
  }

  lemma StripPunctuationCons(c: char, x: string)
    ensures StripPunctuation([c] + x) == (if IsPunctuation(c) then [] else [c]) + StripPunctuation(x)
  {
    assert ([c] + x)[1..] == x;
  }

  /** A text is left unchanged exactly when it holds no punctuation. */
  lemma {:induction false} StripPunctuationUnchanged(s: string)
    ensures StripPunctuation(s) == s <==> forall c :: c in s ==> !IsPunctuation(c)
    decreases |s|
  {
    if s != [] {
      StripPunctuationUnchanged(s[1..]);
      if IsPunctuation(s[0]) {
        assert |StripPunctuation(s)| <= |s[1..]| < |s|;
      }
    }
  }

  /** Stripping twice is stripping once. */
  lemma StripPunctuationIdempotent(s: string)
    ensures StripPunctuation(StripPunctuation(s)) == StripPunctuation(s)
  {
    StripPunctuationUnchanged(StripPunctuation(s));
  }

  /** A token of `str.split()`: non-empty and free of whitespace. */
  predicate IsWord(t: string)
  {
    t != [] && forall c :: c in t ==> !IsSpace(c)
  }

  /** The text with its leading whitespace removed. */
  function DropSpaces(s: string): (r: string)
    ensures |r| <= |s| && r == s[|s| - |r|..]
    ensures r == [] || !IsSpace(r[0])
    ensures s == [] || !IsSpace(s[0]) ==> r == s
    ensures AllSpaces(s[..|s| - |r|])
    decreases |s|
  {
    if s != [] && IsSpace(s[0]) then
      var r := DropSpaces(s[1..]);
      assert s[..|s| - |r|] == [s[0]] + s[1..][..|s| - 1 - |r|];
      r
    else s
  }

  /** Text made of whitespace alone. */
  predicate AllSpaces(s: string)
  {
    forall i :: 0 <= i < |s| ==> IsSpace(s[i])
  }

  /** The longest prefix of `s` without whitespace. */
  function WordPrefix(s: string): (w: string)
    ensures |w| <= |s| && w == s[..|w|]
    ensures forall c :: c in w ==> !IsSpace(c)
    ensures |w| < |s| ==> IsSpace(s[|w|])
    ensures s != [] && !IsSpace(s[0]) ==> |w| >= 1
    decreases |s|
  {
    if s == [] || IsSpace(s[0]) then [] else [s[0]] + WordPrefix(s[1..])
  }

  /** `s.split()`: the maximal runs of non-whitespace characters, in order. */
  function SplitWhitespace(s: string): (r: seq<string>)
    ensures forall t :: t in r ==> IsWord(t)
    decreases |s|
  {
    var rest := DropSpaces(s);
    if rest == [] then []
    else
      var w := WordPrefix(rest);
      [w] + SplitWhitespace(rest[|w|..])
  }

  /** Whitespace in front changes nothing. */
  lemma SplitSpaceCons(c: char, s: string)
    requires IsSpace(c)
    ensures SplitWhitespace([c] + s) == SplitWhitespace(s)
  {
    assert ([c] + s)[1..] == s;
    assert DropSpaces([c] + s) == DropSpaces(s);
  }

  /** Text made of whitespace alone has no token. */
  lemma {:induction false} SplitAllSpaces(s: string)
    requires AllSpaces(s)
    ensures SplitWhitespace(s) == []
    decreases |s|
  {
    if s != [] {
      SplitAllSpaces(s[1..]);
      assert s == [s[0]] + s[1..];
      SplitSpaceCons(s[0], s[1..]);
    }
  }

  /**
   A whitespace character separates: the tokens of `a + [c] + b` are those
   of `a` followed by those of `b`, whatever whitespace `a` and `b` hold.
   */
  lemma {:induction false} SplitAtSpace(a: string, c: char, b: string)
    requires IsSpace(c)
    ensures SplitWhitespace(a + [c] + b) == SplitWhitespace(a) + SplitWhitespace(b)
    decreases |a|
  {
    if a == [] {
      Regroup(a, 0, c, b);
      SplitSpaceCons(c, b);
    } else if IsSpace(a[0]) {
      SplitAtSpace(a[1..], c, b);
      SplitAtSpaceLead(a, c, b);
    } else {
      var w := WordPrefix(a);
      SplitAtSpace(a[|w|..], c, b);
      SplitAtSpaceWord(a, c, b);
    }
  }

  /** `SplitAtSpace` when `a` starts with whitespace. */
  lemma SplitAtSpaceLead(a: string, c: char, b: string)
    requires a != [] && IsSpace(a[0])
    requires SplitWhitespace(a[1..] + [c] + b) == SplitWhitespace(a[1..]) + SplitWhitespace(b)
    ensures SplitWhitespace(a + [c] + b) == SplitWhitespace(a) + SplitWhitespace(b)
  {
    Regroup(a, 1, c, b);
    SplitSpaceCons(a[0], a[1..] + [c] + b);
    SplitSpaceCons(a[0], a[1..]);
  }

  /** `SplitAtSpace` when `a` starts with its first token. */
  lemma SplitAtSpaceWord(a: string, c: char, b: string)
    requires IsSpace(c) && a != [] && !IsSpace(a[0])
    requires var t := a[|WordPrefix(a)|..];
             SplitWhitespace(t + [c] + b) == SplitWhitespace(t) + SplitWhitespace(b)
    ensures SplitWhitespace(a + [c] + b) == SplitWhitespace(a) + SplitWhitespace(b)
  {
    var w := WordPrefix(a);
    var t := a[|w|..];
    Regroup(a, |w|, c, b);
    SplitWordThen(w, t + [c] + b);
    SplitWordThen(w, t);
    Assoc([w], SplitWhitespace(t), SplitWhitespace(b));
  }

  /** Cutting `a` at `k` and regrouping around a middle element. */
  lemma Regroup<T>(a: seq<T>, k: nat, c: T, b: seq<T>)
    requires k <= |a|
    ensures a == a[..k] + a[k..]
    ensures a + [c] + b == a[..k] + (a[k..] + [c] + b)
    ensures k == 1 ==> a[..k] == [a[0]]
    ensures (a[k..] + [c] + b)[0] == if k == |a| then c else a[k]
  {
  }

  lemma Assoc<T>(x: seq<T>, y: seq<T>, z: seq<T>)
    ensures (x + y) + z == x + (y + z)
  {
  }

  /** Every character of every token of `ts` is a character of `s`. */
  ghost predicate CharsFrom(ts: seq<string>, s: string)
  {
    forall i, c :: 0 <= i < |ts| && c in ts[i] ==> c in s
  }

  /** Every character of every token comes from the text. */
  lemma {:induction false} SplitWhitespaceChars(s: string)
    ensures CharsFrom(SplitWhitespace(s), s)
    decreases |s|
  {
    var rest := DropSpaces(s);
    if rest != [] {
      var w := WordPrefix(rest);
      var tail := rest[|w|..];
      assert SplitWhitespace(s) == [w] + SplitWhitespace(tail);
      SplitWhitespaceChars(tail);
      SliceChars(s, |s| - |rest|, |s|);
      SliceChars(rest, 0, |w|);
      SliceChars(rest, |w|, |rest|);
      CharsFromCons(w, SplitWhitespace(tail), tail, s);
    }
  }

  /** A token drawn from `s` in front of tokens drawn from a part of `s`. */
  lemma CharsFromCons(w: string, ts: seq<string>, t: string, s: string)
    requires forall c :: c in w ==> c in s
    requires forall c :: c in t ==> c in s
    requires CharsFrom(ts, t)
    ensures CharsFrom([w] + ts, s)
  {
    forall i, c | 0 <= i < |[w] + ts| && c in ([w] + ts)[i]
      ensures c in s
    {
      if i > 0 {
        assert ([w] + ts)[i] == ts[i - 1];
      }
    }
  }

  /** The characters of a slice are characters of the whole. */
  lemma SliceChars(s: string, lo: nat, hi: nat)
    requires lo <= hi <= |s|
    ensures forall c :: c in s[lo..hi] ==> c in s
  {
    forall c | c in s[lo..hi]
      ensures c in s
    {
      var k :| 0 <= k < hi - lo && s[lo..hi][k] == c;
      assert s[lo + k] == c;
    }
  }

  /** `sep.join(pieces)`. */
  function JoinWith(pieces: seq<string>, sep: char): (s: string)
    ensures |pieces| > 0 ==> pieces[0] <= s
    decreases |pieces|
  {
    if pieces == [] then []
    else if |pieces| == 1 then pieces[0]
    else pieces[0] + [sep] + JoinWith(pieces[1..], sep)
  }

  lemma {:induction false} WordPrefixOf(t: string, tail: string)
    requires forall c :: c in t ==> !IsSpace(c)
    requires tail == [] || IsSpace(tail[0])
    ensures WordPrefix(t + tail) == t
    decreases |t|
  {
    if t == [] {
      assert t + tail == tail;
    } else {
      assert (t + tail)[1..] == t[1..] + tail;
      WordPrefixOf(t[1..], tail);
    }
  }

  lemma SplitWordThen(t: string, tail: string)
    requires IsWord(t)
    requires tail == [] || IsSpace(tail[0])
    ensures SplitWhitespace(t + tail) == [t] + SplitWhitespace(tail)
  {
    var s := t + tail;
    assert DropSpaces(s) == s;
    WordPrefixOf(t, tail);
    assert s[|t|..] == tail;
  }

  lemma SplitAfterSpace(j: string)
    requires j == [] || !IsSpace(j[0])
    ensures SplitWhitespace([' '] + j) == SplitWhitespace(j)
  {
    assert ([' '] + j)[1..] == j;
    assert DropSpaces([' '] + j) == j;
  }

  /** Joining words with single spaces and splitting again gives the words back. */
  lemma {:induction false} SplitJoinWords(ts: seq<string>)
    requires forall i :: 0 <= i < |ts| ==> IsWord(ts[i])
    ensures SplitWhitespace(JoinWith(ts, ' ')) == ts
    decreases |ts|
  {
    if |ts| == 1 {
      SplitJoinOne(ts);
    } else if |ts| > 1 {
      SplitJoinWords(ts[1..]);
      SplitJoinCons(ts);
    }
  }

  lemma SplitJoinOne(ts: seq<string>)
    requires |ts| == 1 && IsWord(ts[0])
    ensures SplitWhitespace(JoinWith(ts, ' ')) == ts
  {
    assert JoinWith(ts, ' ') == ts[0];
    SplitWord(ts[0]);
  }

  /** A single word splits to itself. */
  lemma SplitWord(t: string)
    requires IsWord(t)
    ensures SplitWhitespace(t) == [t]
  {
    var empty: string := [];
    assert t + empty == t;
    WordPrefixOf(t, empty);
    assert DropSpaces(t) == t;
    assert t[|t|..] == empty;
    assert DropSpaces(empty) == empty;
  }

  lemma SplitJoinCons(ts: seq<string>)
    requires |ts| > 1 && IsWord(ts[0]) && IsWord(ts[1])
    requires SplitWhitespace(JoinWith(ts[1..], ' ')) == ts[1..]
    ensures SplitWhitespace(JoinWith(ts, ' ')) == ts
  {
    assert ts == [ts[0]] + ts[1..];
    SplitJoinStep(ts[0], ts[1..]);
  }

  lemma SplitJoinStep(t: string, rest: seq<string>)
    requires IsWord(t) && |rest| > 0 && IsWord(rest[0])
    ensures SplitWhitespace(JoinWith([t] + rest, ' ')) == [t] + SplitWhitespace(JoinWith(rest, ' '))
  {
    var j := JoinWith(rest, ' ');
    JoinCons(t, rest, ' ');
    JoinStartsWithHead(rest, ' ');
    SplitWordThen(t, [' '] + j);
    SplitAfterSpace(j);
  }

  /** Joining a piece in front of at least one more adds the piece and a separator. */
  lemma JoinCons(t: string, rest: seq<string>, sep: char)
    requires |rest| > 0
    ensures JoinWith([t] + rest, sep) == t + ([sep] + JoinWith(rest, sep))
  {
    assert ([t] + rest)[1..] == rest;
  }

  /** The join starts with the first character of a non-empty first piece. */
  lemma JoinStartsWithHead(pieces: seq<string>, sep: char)
    requires |pieces| > 0 && pieces[0] != []
    ensures JoinWith(pieces, sep) != [] && JoinWith(pieces, sep)[0] == pieces[0][0]
  {
    assert pieces[0] <= JoinWith(pieces, sep);
  }

  /** `s.split(sep)` for a one-character separator: always at least one piece. */
  function SplitOn(s: string, sep: char): (pieces: seq<string>)
    ensures |pieces| == multiset(s)[sep] + 1
    ensures forall i :: 0 <= i < |pieces| ==> sep !in pieces[i]
    ensures forall i, c :: 0 <= i < |pieces| && c in pieces[i] ==> c in s
    decreases |s|
  {
    if s == [] then [[]]
    else
      assert s == [s[0]] + s[1..];
      var rest := SplitOn(s[1..], sep);
      if s[0] == sep then [[]] + rest
      else [[s[0]] + rest[0]] + rest[1..]
  }

  /** Splitting and joining back with the same separator restores the text. */
  lemma {:induction false} JoinSplit(s: string, sep: char)
    ensures JoinWith(SplitOn(s, sep), sep) == s
    decreases |s|
  {
    if s != [] {
      JoinSplit(s[1..], sep);
      JoinSplitStep(s, sep);
    }
  }

  /** The step of `JoinSplit`: the first character is put back in front. */
  lemma JoinSplitStep(s: string, sep: char)
    requires s != [] && JoinWith(SplitOn(s[1..], sep), sep) == s[1..]
    ensures JoinWith(SplitOn(s, sep), sep) == s
  {
    var c, x := s[0], s[1..];
    assert s == [c] + x;
    JoinSplitCons(c, x, sep);
  }

  /** A character put in front of a text that round-trips still round-trips. */
  lemma JoinSplitCons(c: char, x: string, sep: char)
    requires JoinWith(SplitOn(x, sep), sep) == x
    ensures JoinWith(SplitOn([c] + x, sep), sep) == [c] + x
  {
    var rest := SplitOn(x, sep);
    if c == sep {
      SplitOnSeparator(x, sep);
      JoinEmptyHead(rest, sep);
    } else {
      SplitOnCons(c, x, sep);
      JoinExtendHead(c, rest, sep);
    }
  }

  /** A leading empty piece contributes just the separator. */
  lemma JoinEmptyHead(rest: seq<string>, sep: char)
    requires |rest| >= 1
    ensures JoinWith([[]] + rest, sep) == [sep] + JoinWith(rest, sep)
  {
    assert ([[]] + rest)[1..] == rest;
  }

  /** Prefixing the first piece with a character prefixes the join with it. */
  lemma JoinExtendHead(c: char, rest: seq<string>, sep: char)
    requires |rest| >= 1
    ensures JoinWith([[c] + rest[0]] + rest[1..], sep) == [c] + JoinWith(rest, sep)
  {
    var pieces := [[c] + rest[0]] + rest[1..];
    assert pieces[1..] == rest[1..];
    if |rest| > 1 {
      assert JoinWith(pieces, sep) == ([c] + rest[0]) + [sep] + JoinWith(rest[1..], sep);
      assert JoinWith(rest, sep) == rest[0] + [sep] + JoinWith(rest[1..], sep);
    }
  }

  /** Text free of the separator is glued onto the first piece of what follows it. */
  lemma {:induction false} SplitOnPrefix(a: string, t: string, sep: char)
    requires sep !in a
    ensures SplitOn(a + t, sep) == [a + SplitOn(t, sep)[0]] + SplitOn(t, sep)[1..]
    decreases |a|
  {
    if a == [] {
      assert a + t == t;
      assert a + SplitOn(t, sep)[0] == SplitOn(t, sep)[0];
    } else {
      SplitOnPrefix(a[1..], t, sep);
      SplitOnPrefixStep(a, t, sep);
    }
  }

  /** The step of `SplitOnPrefix`: one more leading character joins the first piece. */
  lemma SplitOnPrefixStep(a: string, t: string, sep: char)
    requires a != [] && a[0] != sep
    requires SplitOn(a[1..] + t, sep) == [a[1..] + SplitOn(t, sep)[0]] + SplitOn(t, sep)[1..]
    ensures SplitOn(a + t, sep) == [a + SplitOn(t, sep)[0]] + SplitOn(t, sep)[1..]
  {
    var x := a[1..] + t;
    HeadTail(a, t);
    SplitOnCons(a[0], x, sep);
    HeadTail(a, SplitOn(t, sep)[0]);
  }

  /** A leading character other than the separator joins the first piece. */
  lemma SplitOnCons(c: char, x: string, sep: char)
    requires c != sep
    ensures SplitOn([c] + x, sep) == [[c] + SplitOn(x, sep)[0]] + SplitOn(x, sep)[1..]
  {
    assert ([c] + x)[1..] == x;
  }

  lemma HeadTail(a: string, b: string)
    requires a != []
    ensures [a[0]] + (a[1..] + b) == a + b
  {
    assert a == [a[0]] + a[1..];
  }

  /** Joining separator-free pieces and splitting again gives the pieces back. */
  lemma {:induction false} SplitJoin(pieces: seq<string>, sep: char)
    requires |pieces| >= 1
    requires forall i :: 0 <= i < |pieces| ==> sep !in pieces[i]
    ensures SplitOn(JoinWith(pieces, sep), sep) == pieces
    decreases |pieces|
  {
    if |pieces| == 1 {
      SplitOnPiece(pieces[0], sep);
    } else {
      var a, rest := pieces[0], pieces[1..];
      SplitJoin(rest, sep);
      SplitJoinPiece(a, rest, sep);
      assert [a] + rest == pieces;
    }
  }

  /** A separator-free text splits to itself alone. */
  lemma SplitOnPiece(a: string, sep: char)
    requires sep !in a
    ensures SplitOn(a, sep) == [a]
  {
    var empty: string := [];
    SplitOnPrefix(a, empty, sep);
    assert a + empty == a;
  }

  /** The step of `SplitJoin`: the first piece is split off in front of the rest. */
  lemma SplitJoinPiece(a: string, rest: seq<string>, sep: char)
    requires |rest| > 0 && sep !in a
    requires SplitOn(JoinWith(rest, sep), sep) == rest
    ensures SplitOn(JoinWith([a] + rest, sep), sep) == [a] + rest
  {
    JoinCons(a, rest, sep);
    SplitOnSeparated(a, JoinWith(rest, sep), sep);
  }

  /** A separator-free piece followed by the separator is split off as one piece. */
  lemma SplitOnSeparated(a: string, j: string, sep: char)
    requires sep !in a
    ensures SplitOn(a + ([sep] + j), sep) == [a] + SplitOn(j, sep)
  {
    var t: string := [sep] + j;
    var empty: string := [];
    SplitOnPrefix(a, t, sep);
    SplitOnSeparator(j, sep);
    assert a + empty == a;
  }

  /** A leading separator splits off an empty piece. */
  lemma SplitOnSeparator(j: string, sep: char)
    ensures SplitOn([sep] + j, sep) == [[]] + SplitOn(j, sep)
  {
    assert ([sep] + j)[1..] == j;
  }

  /** Field 2 of a tab-separated line, when the line has at least three fields. */
  function FieldTwo(line: string): (r: Option<string>)
    ensures r.None? <==> multiset(line)['\t'] < 2
    ensures r.Some? ==> '\t' !in r.value && forall c :: c in r.value ==> c in line
  {
    var fields := SplitOn(line, '\t');
    if |fields| >= 3 then Some(fields[2]) else None
  }

  /** The `loadTagged` loop over already-split lines: lines without field 2 are skipped. */
  function TaggedTokens(lines: seq<string>): (tokens: seq<string>)
    ensures |tokens| <= |lines|
    ensures forall i :: 0 <= i < |tokens| ==> '\t' !in tokens[i]
    decreases |lines|
  {
    if lines == [] then []
    else
      var n := |lines| - 1;
      var prev := TaggedTokens(lines[..n]);
      match FieldTwo(lines[n])
      case Some(t) => prev + [t]
      case None => prev
  }

  /** The number of lines with at least two tabs, that is with a field 2. */
  function FullLines(lines: seq<string>): nat
    decreases |lines|
  {
    if lines == [] then 0
    else FullLines(lines[..|lines| - 1]) + (if multiset(lines[|lines| - 1])['\t'] >= 2 then 1 else 0)
  }

  /** One token per line that has a field 2, and none for the others. */
  lemma {:induction false} TaggedTokensLength(lines: seq<string>)
    ensures |TaggedTokens(lines)| == FullLines(lines)
    decreases |lines|
  {
    if lines != [] {
      TaggedTokensLength(lines[..|lines| - 1]);
    }
  }

  /** Skipping works line by line: the tokens of two blocks of lines are concatenated. */
  lemma {:induction false} TaggedTokensAppend(a: seq<string>, b: seq<string>)
    ensures TaggedTokens(a + b) == TaggedTokens(a) + TaggedTokens(b)
    decreases |b|
  {
    if b == [] {
      assert a + b == a;
    } else {
      var n := |b| - 1;
      assert (a + b)[..|a + b| - 1] == a + b[..n];
      TaggedTokensAppend(a, b[..n]);
    }
  }

  /** `loadTagged`: field 2 of every newline-separated line that has at least three tab fields. */
  function LoadTagged(content: string): (tokens: seq<string>)
    ensures forall i :: 0 <= i < |tokens| ==> '\t' !in tokens[i] && '\n' !in tokens[i]
  {
    var lines := SplitOn(content, '\n');
    var tokens := TaggedTokens(lines);
    assert forall i :: 0 <= i < |tokens| ==> '\n' !in tokens[i] by {
      TaggedTokensNoNewline(lines);
    }
    tokens
  }

  lemma {:induction false} TaggedTokensNoNewline(lines: seq<string>)
    requires forall i :: 0 <= i < |lines| ==> '\n' !in lines[i]
    ensures forall i :: 0 <= i < |TaggedTokens(lines)| ==> '\n' !in TaggedTokens(lines)[i]
    decreases |lines|
  {
    if lines != [] {
      TaggedTokensNoNewline(lines[..|lines| - 1]);
    }
  }

  lemma {:induction false} JoinWithAvoids(pieces: seq<string>, sep: char, c: char)
    requires c != sep
    requires forall i :: 0 <= i < |pieces| ==> c !in pieces[i]
    ensures c !in JoinWith(pieces, sep)
    decreases |pieces|
  {
    if |pieces| > 1 {
      JoinWithAvoids(pieces[1..], sep, c);
    }
  }

  /** A tagged file whose every line is `a<TAB>b<TAB>w…` loads as exactly the words `w`, in line order. */
  lemma {:induction false} LoadTaggedRoundTrip(rows: seq<seq<string>>)
    requires forall i :: 0 <= i < |rows| ==> |rows[i]| >= 3
    requires forall i, j :: 0 <= i < |rows| && 0 <= j < |rows[i]| ==> '\t' !in rows[i][j] && '\n' !in rows[i][j]
    ensures LoadTagged(JoinWith(seq(|rows|, i requires 0 <= i < |rows| => JoinWith(rows[i], '\t')), '\n'))
         == Thirds(rows)
  {
    var lines := seq(|rows|, i requires 0 <= i < |rows| => JoinWith(rows[i], '\t'));
    if rows == [] {
      var empty: string := [];
      assert SplitOn(empty, '\n') == [empty];
      assert FieldTwo(empty) == None;
      assert [empty][..0] == [];
    } else {
      forall i | 0 <= i < |rows|
        ensures '\n' !in lines[i]
      {
        JoinWithAvoids(rows[i], '\t', '\n');
      }
      SplitJoin(lines, '\n');
      TaggedRows(rows, lines);
    }
  }

  /** Field 2 of each row. */
  function Thirds(rows: seq<seq<string>>): (r: seq<string>)
    requires forall i :: 0 <= i < |rows| ==> |rows[i]| >= 3
    ensures |r| == |rows| && forall i :: 0 <= i < |rows| ==> r[i] == rows[i][2]
    decreases |rows|
  {
    if rows == [] then [] else Thirds(rows[..|rows| - 1]) + [rows[|rows| - 1][2]]
  }

  lemma {:induction false} TaggedRows(rows: seq<seq<string>>, lines: seq<string>)
    requires forall i :: 0 <= i < |rows| ==> |rows[i]| >= 3
    requires forall i, j :: 0 <= i < |rows| && 0 <= j < |rows[i]| ==> '\t' !in rows[i][j]
    requires |lines| == |rows| && forall i :: 0 <= i < |rows| ==> lines[i] == JoinWith(rows[i], '\t')
    ensures TaggedTokens(lines) == Thirds(rows)
    decreases |rows|
  {
    if rows != [] {
      var n := |rows| - 1;
      assert FieldTwo(lines[n]) == Some(rows[n][2]) by {
        SplitJoin(rows[n], '\t');
      }
      TaggedRows(rows[..n], lines[..n]);
    }
  }

  /** Every character of a tagged token comes from the file content. */
  lemma LoadTaggedChars(content: string)
    ensures CharsFrom(LoadTagged(content), content)
  {
    TaggedTokensChars(SplitOn(content, '\n'), content);
  }

  lemma {:induction false} TaggedTokensChars(lines: seq<string>, s: string)
    requires CharsFrom(lines, s)
    ensures CharsFrom(TaggedTokens(lines), s)
    decreases |lines|
  {
    if lines != [] {
      var n := |lines| - 1;
      TaggedTokensChars(lines[..n], s);
    }
  }
}
