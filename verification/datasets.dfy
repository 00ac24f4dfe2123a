/**
 The corpus held by a `DataSet`: the documents of each class in load order and
 the inventory of every word loaded.  Directory walking and file reading are
 not modelled; the loader is given the documents in the order it visits them.
 */
module DataSets {
  import opened Folds
  import opened Documents

  /** All words of a list of documents, document after document. */
  function Flatten(docs: seq<Document>): seq<string>
    decreases |docs|
  {
    if docs == [] then [] else Flatten(docs[..|docs| - 1]) + docs[|docs| - 1].words
  }

  /** A word of the flattened list is a word of one of the documents, and conversely. */
  lemma {:induction false} FlattenMember(docs: seq<Document>)
    ensures forall w :: w in Flatten(docs) <==> exists i :: 0 <= i < |docs| && w in docs[i].words
    decreases |docs|
  {
    if docs != [] {
      var n := |docs| - 1;
      FlattenMember(docs[..n]);
      assert forall i :: 0 <= i < n ==> docs[..n][i] == docs[i];
    }
  }

  lemma {:induction false} FlattenAppend(a: seq<Document>, b: seq<Document>)
    ensures Flatten(a + b) == Flatten(a) + Flatten(b)
    decreases |b|
  {
    if b == [] {
      assert a + b == a;
    } else {
      var n := |b| - 1;
      calc {
        Flatten(a + b);
        { assert (a + b)[..|a + b| - 1] == a + b[..n] && (a + b)[|a + b| - 1] == b[n]; }
        Flatten(a + b[..n]) + b[n].words;
        { FlattenAppend(a, b[..n]); }
        Flatten(a) + Flatten(b[..n]) + b[n].words;
        Flatten(a) + (Flatten(b[..n]) + b[n].words);
      }
    }
  }

  /** `w` is a word of some loaded document of some class. */
  ghost predicate Occurs(data: map<string, seq<DataFile>>, w: string)
  {
    exists c, i :: c in data && 0 <= i < |data[c]| && w in data[c][i].words
  }

  lemma OccursRemove(data: map<string, seq<DataFile>>, c: string, w: string)
    requires c in data
    ensures Occurs(data, w) <==> Occurs(data - {c}, w) || w in Flatten(data[c])
  {
    FlattenMember(data[c]);
    if Occurs(data, w) {
      var c', i :| c' in data && 0 <= i < |data[c']| && w in data[c'][i].words;
      if c' != c {
        assert c' in data - {c} && (data - {c})[c'] == data[c'];
      }
    }
    if Occurs(data - {c}, w) {
      var c', i :| c' in data - {c} && 0 <= i < |(data - {c})[c']| && w in (data - {c})[c'][i].words;
      assert c' in data && data[c'][i] == (data - {c})[c'][i];
    }
  }

  /** Appending a document to a class adds exactly its words to those that occur. */
  lemma OccursAppend(data: map<string, seq<DataFile>>, c: string, d: DataFile, w: string)
    ensures var docs := if c in data then data[c] else [];
            Occurs(data[c := docs + [d]], w) <==> Occurs(data, w) || w in d.words
  {
    var docs := if c in data then data[c] else [];
    if Occurs(data[c := docs + [d]], w) {
      OccursAppendOld(data, c, docs, d, w);
    }
    if Occurs(data, w) {
      OccursAppendKeeps(data, c, docs, d, w);
    }
    if w in d.words {
      assert data[c := docs + [d]][c][|docs|] == d;
    }
  }

  /** A word occurring after the append occurred before or is a word of the new document. */
  lemma OccursAppendOld(data: map<string, seq<DataFile>>, c: string, docs: seq<DataFile>, d: DataFile, w: string)
    requires docs == if c in data then data[c] else []
    requires Occurs(data[c := docs + [d]], w)
    ensures Occurs(data, w) || w in d.words
  {
    var data': map<string, seq<DataFile>> := data[c := docs + [d]];
    var c', i :| c' in data' && 0 <= i < |data'[c']| && w in data'[c'][i].words;
    if c' != c {
      assert data[c'][i] == data'[c'][i];
    } else if i < |docs| {
      assert data[c][i] == data'[c][i];
    }
  }

  /** A word occurring before the append still occurs after it. */
  lemma OccursAppendKeeps(data: map<string, seq<DataFile>>, c: string, docs: seq<DataFile>, d: DataFile, w: string)
    requires docs == if c in data then data[c] else []
    requires Occurs(data, w)
    ensures Occurs(data[c := docs + [d]], w)
  {
    var data': map<string, seq<DataFile>> := data[c := docs + [d]];
    var c', i :| c' in data && 0 <= i < |data[c']| && w in data[c'][i].words;
    assert data'[c'][i] == data[c'][i];
  }

  /** The class list every version fixes in `DataSet.__init__`. */
  const Classes: seq<string> := ["positive", "negative"]

  /**
   The per-class document lists and the word inventory (`dict` from word to
   0) that `load` fills in.
   */
  datatype DataSet = DataSet(classes: seq<string>, data: map<string, seq<DataFile>>, inventory: map<string, nat>)

  /** `for word in words: inventory[word] = 0`. */
  function RecordWords(inventory: map<string, nat>, words: seq<string>): (r: map<string, nat>)
    ensures forall w :: w in r <==> w in inventory || w in words
    ensures forall w :: w in r ==> r[w] == if w in words then 0 else inventory[w]
    decreases |words|
  {
    if words == [] then inventory
    else
      var n := |words| - 1;
      assert words == words[..n] + [words[n]];
      RecordWords(inventory, words[..n])[words[n] := 0]
  }

  /** One loaded file: append it to its class's list and record its words. */
  function AddDataFile(ds: DataSet, d: DataFile): DataSet
  {
    var c := d.className;
    var docs := if c in ds.data then ds.data[c] else [];
    DataSet(ds.classes, ds.data[c := docs + [d]], RecordWords(ds.inventory, d.words))
  }

  /** The documents of class `c`, in order. */
  function OfClass(files: seq<Document>, c: string): (r: seq<Document>)
    ensures forall i :: 0 <= i < |r| ==> r[i].className == c
    ensures |r| <= |files|
    decreases |files|
  {
    if files == [] then []
    else
      var n := |files| - 1;
      OfClass(files[..n], c) + (if files[n].className == c then [files[n]] else [])
  }

  /** Every document of class `c` is kept as often as it was visited, and no other. */
  lemma {:induction false} OfClassCounts(files: seq<Document>, c: string, d: Document)
    ensures multiset(OfClass(files, c))[d] == if d.className == c then multiset(files)[d] else 0
    decreases |files|
  {
    if files != [] {
      var n := |files| - 1;
      OfClassCounts(files[..n], c, d);
      assert files == files[..n] + [files[n]];
    }
  }

  /** The documents kept are exactly the visited documents of class `c`. */
  lemma OfClassMember(files: seq<Document>, c: string, d: Document)
    ensures d in OfClass(files, c) <==> d in files && d.className == c
  {
    OfClassCounts(files, c, d);
  }

  /** Filtering works piecewise, so the kept documents stay in visiting order. */
  lemma {:induction false} OfClassAppend(a: seq<Document>, b: seq<Document>, c: string)
    ensures OfClass(a + b, c) == OfClass(a, c) + OfClass(b, c)
    decreases |b|
  {
    if b == [] {
      assert a + b == a;
    } else {
      var x, d := b[..|b| - 1], b[|b| - 1];
      assert b == x + [d];
      OfClassAppend(a, x, c);
      OfClassAppendStep(a, x, d, c);
    }
  }

  /** The step of `OfClassAppend`: one more document at the end of the second part. */
  lemma OfClassAppendStep(a: seq<Document>, x: seq<Document>, d: Document, c: string)
    requires OfClass(a + x, c) == OfClass(a, c) + OfClass(x, c)
    ensures OfClass(a + (x + [d]), c) == OfClass(a, c) + OfClass(x + [d], c)
  {
    var last: seq<Document> := if d.className == c then [d] else [];
    var p, q := OfClass(a, c), OfClass(x, c);
    calc {
      OfClass(a + (x + [d]), c);
      { assert a + (x + [d]) == (a + x) + [d]; }
      OfClass((a + x) + [d], c);
      { OfClassSnoc(a + x, d, c); }
      OfClass(a + x, c) + last;
      (p + q) + last;
      { assert (p + q) + last == p + (q + last); }
      p + (q + last);
      { OfClassSnoc(x, d, c); }
      p + OfClass(x + [d], c);
    }
  }

  /** A document appended to the visit is kept at the end exactly when it has class `c`. */
  lemma OfClassSnoc(x: seq<Document>, d: Document, c: string)
    ensures OfClass(x + [d], c) == OfClass(x, c) + (if d.className == c then [d] else [])
  {
    assert (x + [d])[..|x|] == x;
  }


  /**
   `DataSet.__init__` and `load`: starting from empty tables, every visited
   file whose directory names one of the classes is appended to that class's
   list and its words are entered in the inventory.
   */
  function LoadDataSet(classes: seq<string>, files: seq<DataFile>): (ds: DataSet)
    ensures ds.classes == classes
    ensures forall c :: c in ds.data <==> c in classes && OfClass(files, c) != []
    ensures forall c :: c in ds.data ==> ds.data[c] == OfClass(files, c)
    ensures forall w :: w in ds.inventory <==> Occurs(ds.data, w)
    ensures forall w :: w in ds.inventory ==> ds.inventory[w] == 0
    decreases |files|
  {
    if files == [] then DataSet(classes, map[], map[])
    else
      var n := |files| - 1;
      var prev := LoadDataSet(classes, files[..n]);
      var d := files[n];
      if d.className in classes then
        AddDataFileInventory(prev, d);
        AddDataFile(prev, d)
      else
        prev
  }

  /** Adding a document keeps the inventory equal to the words that occur. */
  lemma AddDataFileInventory(ds: DataSet, d: DataFile)
    requires forall w :: w in ds.inventory <==> Occurs(ds.data, w)
    ensures var ds' := AddDataFile(ds, d);
            forall w :: w in ds'.inventory <==> Occurs(ds'.data, w)
  {
    forall w
      ensures w in AddDataFile(ds, d).inventory <==> Occurs(AddDataFile(ds, d).data, w)
    {
      OccursAppend(ds.data, d.className, d, w);
    }
  }

  /**
   Evolution's `inventoryWord`: every word of every loaded document of every
   class, each mapped to 0, whatever order the classes are visited in.
   */
  ghost function InventoryWord(data: map<string, seq<DataFile>>): (r: map<string, nat>)
    ensures forall w :: w in r <==> Occurs(data, w)
    ensures forall w :: w in r ==> r[w] == 0
    decreases |data|
  {
    if |data| == 0 then map[]
    else
      var c := PickKey(data);
      RemoveKeySize(data, c);
      var r := RecordWords(InventoryWord(data - {c}), Flatten(data[c]));
      assert forall w :: w in r <==> Occurs(data, w) by {
        forall w
          ensures w in r <==> Occurs(data, w)
        {
          OccursRemove(data, c, w);
        }
      }
      r
  }

  /**
   The inventory Evolution2 keeps while loading is the one Evolution
   recomputes from the loaded documents.
   */
  lemma LoadedInventory(classes: seq<string>, files: seq<DataFile>)
    ensures var ds := LoadDataSet(classes, files);
            ds.inventory == InventoryWord(ds.data)
  {
    var ds := LoadDataSet(classes, files);
    SameZeroMaps(ds.inventory, InventoryWord(ds.data), ds.data);
  }

  /** Two all-zero maps whose keys are the words that occur are the same map. */
  lemma SameZeroMaps(a: map<string, nat>, b: map<string, nat>, data: map<string, seq<DataFile>>)
    requires forall w :: w in a <==> Occurs(data, w)
    requires forall w :: w in b <==> Occurs(data, w)
    requires forall w :: w in a ==> a[w] == 0
    requires forall w :: w in b ==> b[w] == 0
    ensures a == b
  {
    assert a.Keys == b.Keys;
  }

  /** Every word of the documents of the listed classes is in the inventory. */
  ghost predicate Consistent(ds: DataSet)
  {
    forall c, i, w :: c in ds.data && 0 <= i < |ds.data[c]| && w in ds.data[c][i].words ==> w in ds.inventory
  }

  lemma LoadedConsistent(classes: seq<string>, files: seq<DataFile>)
    ensures Consistent(LoadDataSet(classes, files))
  {
  }
}
