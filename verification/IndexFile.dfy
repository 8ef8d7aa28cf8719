/** The index file: the in-memory database writes its map when it is destroyed and reads it
    back when it is opened.  Sizes are written as little-endian `int`s. */
module IndexFile {

  import opened Bytes

  const INT_LIMIT: nat := 0x8000_0000

  datatype Item = Item(key: Buffer, value: Buffer)

  function SavedItem(it: Item): Buffer {
    LittleEndian(|it.key|) + it.key + LittleEndian(|it.value|) + it.value
  }

  function Saved(items: seq<Item>): Buffer {
    if items == [] then [] else Saved(items[..|items| - 1]) + SavedItem(items[|items| - 1])
  }

  // ----- the output stream -----

  /** A stream that was asked to write a negative number of bytes writes nothing any more. */
  datatype Out = Out(bytes: Buffer, failed: bool)

  /** Write a size, converted to `int`, and as many bytes as that says. */
  function WriteField(o: Out, field: Buffer): Out {
    var size := |field| % WORD_LIMIT;
    if o.failed then o
    else if size >= INT_LIMIT then Out(o.bytes + LittleEndian(|field|), true)
    else Out(o.bytes + LittleEndian(|field|) + field[..size], false)
  }

  function WriteItems(items: seq<Item>): Out {
    if items == [] then Out([], false)
    else
      var it := items[|items| - 1];
      WriteField(WriteField(WriteItems(items[..|items| - 1]), it.key), it.value)
  }

  /** Items whose sizes fit an `int` are written whole. */
  lemma {:induction false} WrittenWhole(items: seq<Item>)
    requires SizesOk(items)
    ensures WriteItems(items) == Out(Saved(items), false)
  {
    if items != [] {
      var n := |items| - 1;
      WrittenWhole(items[..n]);
      var before, it := Saved(items[..n]), items[n];
      FieldWhole(before, it.key);
      FieldWhole(before + LittleEndian(|it.key|) + it.key, it.value);
      ItemParts(before, it);
    }
  }

  lemma FieldWhole(before: Buffer, field: Buffer)
    requires |field| < INT_LIMIT
    ensures WriteField(Out(before, false), field) == Out(before + LittleEndian(|field|) + field, false)
  {
    assert field[..|field|] == field;
  }

  lemma ItemParts(before: Buffer, it: Item)
    ensures before + LittleEndian(|it.key|) + it.key + LittleEndian(|it.value|) + it.value == before + SavedItem(it)
  {
  }

  /** `insert` keeps the first of two values for a key. */
  ghost function MapOf(items: seq<Item>): map<Buffer, Buffer> {
    if items == [] then map[]
    else
      var m, it := MapOf(items[..|items| - 1]), items[|items| - 1];
      if it.key in m then m else m[it.key := it.value]
  }

  ghost predicate SizesOk(items: seq<Item>) {
    forall i :: 0 <= i < |items| ==> |items[i].key| < INT_LIMIT && |items[i].value| < INT_LIMIT
  }

  /** The first item with an empty key, where loading stops. */
  ghost function FirstEmpty(items: seq<Item>): (i: nat)
    ensures i <= |items| && (i < |items| ==> items[i].key == [])
    ensures forall k :: 0 <= k < i ==> items[k].key != []
  {
    if items == [] then 0 else if items[0].key == [] then 0 else 1 + FirstEmpty(items[1..])
  }

  // ----- the input stream -----

  /** Reading past the end takes what is there and sets both flags; a failed stream reads
      nothing any more. */
  datatype Stream = Stream(bytes: Buffer, pos: nat, failed: bool, eof: bool)

  ghost predicate StreamOk(s: Stream) { s.pos <= |s.bytes| && (s.failed ==> s.eof) }

  datatype Reading = Reading(data: Buffer, s: Stream)

  /** Overwrite the start of `into` with the next bytes, up to its length. */
  function Read(s: Stream, into: Buffer): (r: Reading)
    requires StreamOk(s)
    ensures StreamOk(r.s) && |r.data| == |into| && r.s.bytes == s.bytes && r.s.pos >= s.pos
    ensures !r.s.failed ==> r.s.pos == s.pos + |into|
  {
    if s.failed then Reading(into, s)
    else if s.pos + |into| <= |s.bytes| then Reading(s.bytes[s.pos..s.pos + |into|], s.(pos := s.pos + |into|))
    else
      var n := |s.bytes| - s.pos;
      Reading(s.bytes[s.pos..] + into[n..], Stream(s.bytes, |s.bytes|, true, true))
  }

  function Resize(b: Buffer, n: nat): (r: Buffer)
    ensures |r| == n
  {
    if n <= |b| then b[..n] else b + seq(n - |b|, _ => 0)
  }

  /** `data` is what comes next. */
  ghost predicate Ahead(s: Stream, data: Buffer) {
    !s.failed && s.pos + |data| <= |s.bytes| && s.bytes[s.pos..s.pos + |data|] == data
  }

  lemma ReadExact(s: Stream, into: Buffer, data: Buffer, rest: Buffer)
    requires Ahead(s, data + rest) && |into| == |data|
    ensures Read(s, into).data == data
    ensures Read(s, into).s == s.(pos := s.pos + |data|)
    ensures Ahead(Read(s, into).s, rest)
  {
    SliceOfSlice(s.bytes, s.pos, |data + rest|, 0, |data|);
    SliceOfSlice(s.bytes, s.pos, |data + rest|, |data|, |data + rest|);
  }

  lemma ReadAtEnd(s: Stream, into: Buffer)
    requires StreamOk(s) && !s.failed && s.pos == |s.bytes| && |into| > 0
    ensures Read(s, into).data == into
  {
  }

  // ----- items in the file -----

  lemma {:induction false} SavedPrefix(items: seq<Item>, i: nat)
    requires i <= |items|
    ensures Saved(items[..i]) <= Saved(items)
  {
    if i == |items| {
      assert items[..i] == items;
    } else {
      var init := items[..|items| - 1];
      SavedPrefix(init, i);
      assert init[..i] == items[..i];
    }
  }

  lemma SavedStep(items: seq<Item>, i: nat, s: Stream)
    requires i < |items| && s.bytes == Saved(items) && s.pos == |Saved(items[..i])| && !s.failed
    ensures Ahead(s, SavedItem(items[i]))
    ensures |Saved(items[..i + 1])| == s.pos + |SavedItem(items[i])|
  {
    assert items[..i + 1][..i] == items[..i];
    SavedPrefix(items, i + 1);
    AheadAfter(s, Saved(items[..i]), SavedItem(items[i]));
  }

  lemma AheadAfter(s: Stream, before: Buffer, data: Buffer)
    requires before + data <= s.bytes && s.pos == |before| && !s.failed
    ensures Ahead(s, data)
  {
  }

  /** Reading the key of a well-formed item, and then its value. */
  lemma ReadKey(s: Stream, it: Item, key: Buffer)
    requires Ahead(s, SavedItem(it)) && |it.key| < INT_LIMIT && |key| == |it.key|
    ensures var r1 := Read(s, LittleEndian(0));
      var r2 := Read(r1.s, key);
      && FromLittleEndian(r1.data) == |it.key| && r2.data == it.key
      && r2.s == s.(pos := s.pos + WORD_SIZE + |it.key|) && Ahead(r2.s, LittleEndian(|it.value|) + it.value)
  {
    var rest := LittleEndian(|it.value|) + it.value;
    assert SavedItem(it) == LittleEndian(|it.key|) + (it.key + rest);
    ReadExact(s, LittleEndian(0), LittleEndian(|it.key|), it.key + rest);
    ReadExact(Read(s, LittleEndian(0)).s, key, it.key, rest);
    LittleEndianRoundTrip(|it.key|);
  }

  lemma ReadValue(s: Stream, data: Buffer, into: Buffer, value: Buffer)
    requires Ahead(s, LittleEndian(|data|) + data) && |data| < INT_LIMIT && |into| == WORD_SIZE && |value| == |data|
    ensures var r1 := Read(s, into);
      var r2 := Read(r1.s, value);
      FromLittleEndian(r1.data) == |data| && r2.data == data && r2.s == s.(pos := s.pos + WORD_SIZE + |data|)
  {
    ReadExact(s, into, LittleEndian(|data|), data);
    assert data == data + [];
    ReadExact(Read(s, into).s, value, data, []);
    LittleEndianRoundTrip(|data|);
  }

  // ----- loading -----

  /** `n` items have been read. */
  ghost predicate Upto(s: Stream, items: seq<Item>, n: nat, m: map<Buffer, Buffer>) {
    && n <= FirstEmpty(items) && !s.failed && !s.eof
    && s.bytes == Saved(items) && s.pos == |Saved(items[..n])| && m == MapOf(items[..n])
  }

  /** The size read next is zero exactly when loading is to stop. */
  lemma NextSize(s: Stream, items: seq<Item>, n: nat, m: map<Buffer, Buffer>)
    requires Upto(s, items, n, m) && SizesOk(items) && StreamOk(s)
    ensures var size := FromLittleEndian(Read(s, LittleEndian(0)).data);
      && (size == 0 <==> n == FirstEmpty(items))
      && (n < |items| ==> size == |items[n].key| && Ahead(s, SavedItem(items[n])))
  {
    if n == |items| {
      assert items[..n] == items;
      ReadAtEnd(s, LittleEndian(0));
    } else {
      SavedStep(items, n, s);
      ReadKey(s, items[n], items[n].key);
    }
  }

  lemma OneMore(s: Stream, items: seq<Item>, n: nat, m: map<Buffer, Buffer>)
    requires Upto(s, items, n, m) && n < FirstEmpty(items)
    ensures var it := items[n];
      Upto(s.(pos := s.pos + |SavedItem(it)|), items, n + 1, if it.key in m then m else m[it.key := it.value])
  {
    SavedStep(items, n, s);
    assert items[..n + 1][..n] == items[..n];
  }

  /** The items of a map in a given order. */
  ghost function ItemsOf(m: map<Buffer, Buffer>, order: seq<Buffer>): (items: seq<Item>)
    requires forall i :: 0 <= i < |order| ==> order[i] in m
    ensures |items| == |order| && forall i :: 0 <= i < |order| ==> items[i] == Item(order[i], m[order[i]])
  {
    seq(|order|, i requires 0 <= i < |order| => Item(order[i], m[order[i]]))
  }

  /** Keys are not empty, and all sizes fit an `int`. */
  ghost predicate Storable(m: map<Buffer, Buffer>) {
    forall k :: k in m ==> k != [] && |k| < INT_LIMIT && |m[k]| < INT_LIMIT
  }

  // ----- the database -----

  /** A negative size makes `resize` throw. */
  datatype Opened = Loaded | LengthError

  class InMemoryDatabase {
    var indexObj: map<Buffer, Buffer>

    constructor ()
      ensures indexObj == map[]
    {
      indexObj := map[];
    }

    method Query(key: Buffer) returns (found: bool, value: Buffer)
      ensures found <==> key in indexObj
      ensures found ==> value == indexObj[key]
    {
      found, value := key in indexObj, [];
      if found {
        value := indexObj[key];
      }
    }

    method Insert(key: Buffer, value: Buffer)
      modifies this
      ensures indexObj == old(indexObj)[key := value]
    {
      indexObj := indexObj[key := value];
    }

    /** Write the map in the order in which it is enumerated. */
    method Close(order: seq<Buffer>) returns (file: Buffer)
      requires forall i :: 0 <= i < |order| ==> order[i] in indexObj
      ensures file == WriteItems(ItemsOf(indexObj, order)).bytes
    {
      var out := Out([], false);
      ghost var items := ItemsOf(indexObj, order);
      for i := 0 to |order|
        invariant out == WriteItems(items[..i])
      {
        out := WriteField(out, order[i]);
        out := WriteField(out, indexObj[order[i]]);
        assert items[..i + 1][..i] == items[..i];
      }
      assert items[..|order|] == items;
      file := out.bytes;
    }

    /** Load any file; of one that was written from `items`, all up to the first empty key. */
    method OpenDB(file: Buffer, ghost items: seq<Item>) returns (r: Opened)
      requires indexObj == map[]
      modifies this
      ensures file == Saved(items) && SizesOk(items) ==> r == Loaded && indexObj == MapOf(items[..FirstEmpty(items)])
      ensures Storable(indexObj)
    {
      r := Loaded;
      ghost var good, n := file == Saved(items) && SizesOk(items), 0;
      if |file| == 0 {
        assert good ==> items == [];
        return;
      }
      var s := Stream(file, 0, false, false);
      var key, value, isEnd := [], [], false;
      assert items[..0] == [];
      while !isEnd
        invariant StreamOk(s) && s.bytes == file && isEnd == s.eof && r == Loaded
        invariant Storable(indexObj)
        invariant good ==> Upto(s, items, n, indexObj)
        decreases !isEnd, |file| - s.pos
      {
        var size := Read(s, LittleEndian(0));
        if good {
          NextSize(s, items, n, indexObj);
        }
        if FromLittleEndian(size.data) == 0 {
          break;
        }
        s, key, value, r := LoadItem(s, size, key, value, items, n, good);
        if r == LengthError {
          return;
        }
        isEnd := s.eof;
        n := n + 1;
      }
    }

    /** Read the rest of an item whose key size has been read, and insert it. */
    method LoadItem(s: Stream, size: Reading, oldKey: Buffer, oldValue: Buffer, ghost items: seq<Item>, ghost n: nat, ghost good: bool)
      returns (s': Stream, key: Buffer, value: Buffer, r: Opened)
      requires StreamOk(s) && size == Read(s, LittleEndian(0)) && FromLittleEndian(size.data) != 0 && Storable(indexObj)
      requires good ==> Upto(s, items, n, indexObj) && n < FirstEmpty(items) && SizesOk(items)
      requires good ==> FromLittleEndian(size.data) == |items[n].key| && Ahead(s, SavedItem(items[n]))
      modifies this
      ensures StreamOk(s') && s'.bytes == s.bytes && (r == Loaded ==> s'.eof || s'.pos > s.pos)
      ensures good ==> r == Loaded && Upto(s', items, n + 1, indexObj)
      ensures Storable(indexObj)
    {
      s', key, value, r := ReadPair(s, size, oldKey, oldValue, if good then items[n] else Item([], []), good);
      if good {
        OneMore(s, items, n, indexObj);
      }
      if r == Loaded && key !in indexObj {
        indexObj := indexObj[key := value];
      }
    }
  }

  /** The key and the value of an item, from any stream; strings keep what a failed read leaves. */
  method ReadPair(s: Stream, size: Reading, oldKey: Buffer, oldValue: Buffer, ghost it: Item, ghost good: bool)
    returns (s': Stream, key: Buffer, value: Buffer, r: Opened)
    requires StreamOk(s) && size == Read(s, LittleEndian(0)) && FromLittleEndian(size.data) != 0
    requires good ==> |it.key| < INT_LIMIT && |it.value| < INT_LIMIT
    requires good ==> FromLittleEndian(size.data) == |it.key| && Ahead(s, SavedItem(it))
    ensures StreamOk(s') && s'.bytes == s.bytes && (r == Loaded ==> s'.eof || s'.pos > s.pos)
    ensures r == Loaded ==> key != [] && |key| < INT_LIMIT && |value| < INT_LIMIT
    ensures good ==> r == Loaded && key == it.key && value == it.value && s' == s.(pos := s.pos + |SavedItem(it)|)
  {
    s', key, value, r := s, oldKey, oldValue, LengthError;
    var keySize := FromLittleEndian(size.data);
    if keySize >= INT_LIMIT {
      return;
    }
    key := Resize(key, keySize);
    if good {
      ReadKey(s, it, key);
    }
    var k := Read(size.s, key);
    var valueSize := Read(k.s, size.data);
    if good {
      ReadValue(k.s, it.value, size.data, it.value);
    }
    if FromLittleEndian(valueSize.data) >= INT_LIMIT {
      return;
    }
    value := Resize(value, FromLittleEndian(valueSize.data));
    if good {
      ReadValue(k.s, it.value, size.data, value);
    }
    var v := Read(valueSize.s, value);
    s', key, value, r := v.s, k.data, v.data, Loaded;
  }

  // ----- the round trip -----

  ghost predicate Enumerates(order: seq<Buffer>, m: map<Buffer, Buffer>) {
    && (forall k :: k in order <==> k in m)
    && (forall i, j :: 0 <= i < j < |order| ==> order[i] != order[j])
  }

  lemma {:induction false} MapOfItems(m: map<Buffer, Buffer>, order: seq<Buffer>, n: nat)
    requires Enumerates(order, m) && n <= |order|
    ensures forall i :: 0 <= i < |order| ==> order[i] in m
    ensures var r := MapOf(ItemsOf(m, order)[..n]);
      forall k :: (k in r <==> k in order[..n]) && (k in r ==> k in m && r[k] == m[k])
  {
    if n > 0 {
      MapOfItems(m, order, n - 1);
      var items := ItemsOf(m, order);
      assert items[..n][..n - 1] == items[..n - 1];
      assert order[..n] == order[..n - 1] + [order[n - 1]];
    }
  }

  lemma NoEmptyKey(m: map<Buffer, Buffer>, order: seq<Buffer>)
    requires Storable(m) && forall i :: 0 <= i < |order| ==> order[i] in m
    ensures SizesOk(ItemsOf(m, order)) && FirstEmpty(ItemsOf(m, order)) == |order|
  {
    var items := ItemsOf(m, order);
    assert forall i :: 0 <= i < |items| ==> items[i].key in m;
  }

  lemma AllLoaded(m: map<Buffer, Buffer>, order: seq<Buffer>)
    requires Enumerates(order, m)
    ensures forall i :: 0 <= i < |order| ==> order[i] in m
    ensures MapOf(ItemsOf(m, order)[..|order|]) == m
  {
    MapOfItems(m, order, |order|);
    var r := MapOf(ItemsOf(m, order)[..|order|]);
    assert order[..|order|] == order;
    assert forall k :: (k in r <==> k in m) && (k in r ==> r[k] == m[k]);
  }

  /** What loading gives after a map was saved in an order. */
  ghost function Reloaded(m: map<Buffer, Buffer>, order: seq<Buffer>): map<Buffer, Buffer>
    requires forall i :: 0 <= i < |order| ==> order[i] in m
  {
    MapOf(ItemsOf(m, order)[..FirstEmpty(ItemsOf(m, order))])
  }

  /** Of a map that can be stored, everything is loaded. */
  lemma LoadedItems(m: map<Buffer, Buffer>, order: seq<Buffer>)
    requires Enumerates(order, m)
    ensures forall i :: 0 <= i < |order| ==> order[i] in m
    ensures Storable(m) ==> SizesOk(ItemsOf(m, order))
    ensures Storable(m) ==> Reloaded(m, order) == m
  {
    AllLoaded(m, order);
    if Storable(m) {
      NoEmptyKey(m, order);
    }
  }

  /** The round trip through the file: destroying a database and opening its file again gives
      the same map, whatever the order of enumeration, if and only if no key is empty and all
      sizes are below 2^31. */
  method RoundTripExactlyWhen(db: InMemoryDatabase, order: seq<Buffer>) returns (r: Opened, again: InMemoryDatabase)
    requires Enumerates(order, db.indexObj)
    ensures forall i :: 0 <= i < |order| ==> order[i] in db.indexObj
    ensures (r == Loaded && again.indexObj == db.indexObj) <==> Storable(db.indexObj)
    ensures Storable(db.indexObj) ==> again.indexObj == Reloaded(db.indexObj, order)
  {
    LoadedItems(db.indexObj, order);
    ghost var items := ItemsOf(db.indexObj, order);
    var file := db.Close(order);
    if SizesOk(items) {
      WrittenWhole(items);
    }
    again := new InMemoryDatabase();
    r := again.OpenDB(file, items);
  }

  /** An empty key that is enumerated first costs the whole index. */
  method EmptyKeyLosesAll(k: Buffer, v: Buffer) returns (r: Opened, loaded: map<Buffer, Buffer>)
    requires k != [] && |k| < INT_LIMIT && |v| < INT_LIMIT
    ensures r == Loaded && loaded == map[]
  {
    var db := new InMemoryDatabase();
    db.Insert([], []);
    db.Insert(k, v);
    var order := [[], k];
    ghost var items := ItemsOf(db.indexObj, order);
    assert items[0].key == [] && items[1].key == k;
    WrittenWhole(items);
    var file := db.Close(order);
    var again := new InMemoryDatabase();
    r := again.OpenDB(file, items);
    loaded := again.indexObj;
    assert FirstEmpty(items) == 0;
  }

  /** A value of 2^31 bytes is not read back: the size is negative when it is read. */
  method HugeValueFails(k: Buffer, v: Buffer) returns (r: Opened, loaded: map<Buffer, Buffer>)
    requires k != [] && |v| == INT_LIMIT
    ensures !(r == Loaded && loaded == map[k := v])
  {
    var db := new InMemoryDatabase();
    db.Insert(k, v);
    assert db.indexObj == map[k := v];
    assert k in db.indexObj && |db.indexObj[k]| >= INT_LIMIT;
    var again;
    r, again := RoundTripExactlyWhen(db, [k]);
    loaded := again.indexObj;
  }
}
