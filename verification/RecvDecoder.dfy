/** The restore side: a batch of fingerprints comes in, and the chunks go out in the same
    order, at most 16 containers being held at a time. */
module RecvDecoder {

  import opened Bytes
  import opened ContainerFormat
  import opened Packing
  import opened Dedup
  import opened DedupStore
  import opened LruSpec
  import opened LruCache
  import opened ReadCache
  import opened RestoreIndex

  const CONTAINER_CAPPING_VALUE: nat := 16

  datatype Message = Chunks(items: nat, payload: Buffer) | End(items: nat, payload: Buffer)

  /** One entry of the batch: its fingerprint, the container that has it, and the place of
      that container among those held. */
  datatype Wanted = Wanted(hash: Buffer, containerName: Buffer, containerID: nat)

  ghost predicate FilesFit(disk: map<Buffer, Buffer>) {
    forall id :: id in disk ==> |disk[id]| <= MAX_CONTAINER_SIZE
  }

  ghost predicate Loaded(containers: seq<Buffer>, names: seq<Buffer>, disk: map<Buffer, Buffer>) {
    |names| <= |containers| && forall i :: 0 <= i < |names| ==> SlotHolds(containers[i], disk, names[i])
  }

  lemma LoadedStep(held: seq<Buffer>, containers: seq<Buffer>, names: seq<Buffer>, i: nat, disk: map<Buffer, Buffer>)
    requires i < |names| && i < |held| == |containers| && Loaded(held, names[..i], disk)
    requires containers == held[i := containers[i]] && SlotHolds(containers[i], disk, names[i])
    ensures Loaded(containers, names[..i + 1], disk)
  {
  }

  // ----- what a batch asks for -----

  /** `chunks` are what is stored under the fingerprints of a batch, where they are indexed. */
  ghost predicate BatchOk(store: map<Buffer, Buffer>, disk: map<Buffer, Buffer>, all: map<Buffer, seq<Entry>>,
                          hashes: seq<Buffer>, chunks: seq<Buffer>) {
    && RecipeOk(hashes) && |chunks| == |hashes|
    && Restorable(store, disk, all) && AllHeld(store, all, hashes, chunks)
  }

  ghost predicate AllHeld(store: map<Buffer, Buffer>, all: map<Buffer, seq<Entry>>, hashes: seq<Buffer>, chunks: seq<Buffer>)
    requires |chunks| == |hashes|
  {
    forall k :: 0 <= k < |hashes| ==> HeldAt(store, all, hashes, chunks, k)
  }

  ghost predicate HeldAt(store: map<Buffer, Buffer>, all: map<Buffer, seq<Entry>>, hashes: seq<Buffer>, chunks: seq<Buffer>, k: nat)
    requires k < |hashes| == |chunks|
  {
    if hashes[k] in store then Holds(all, store[hashes[k]], hashes[k], chunks[k]) else chunks[k] == []
  }

  ghost predicate AllIndexed(store: map<Buffer, Buffer>, hashes: seq<Buffer>, start: nat, end: nat)
    requires end <= |hashes|
  {
    forall k :: start <= k < end ==> hashes[k] in store
  }

  ghost predicate Complete(store: map<Buffer, Buffer>, hashes: seq<Buffer>) { AllIndexed(store, hashes, 0, |hashes|) }

  ghost predicate Apart(names: seq<Buffer>) { forall i, j :: 0 <= i < j < |names| ==> names[i] != names[j] }

  ghost predicate NamesOk(names: seq<Buffer>, disk: map<Buffer, Buffer>) {
    Apart(names) && forall i :: 0 <= i < |names| ==> names[i] in disk
  }

  ghost function FilesOf(names: seq<Buffer>, disk: map<Buffer, Buffer>, store: map<Buffer, Buffer>, all: map<Buffer, seq<Entry>>): (r: seq<seq<Entry>>)
    requires NamesOk(names, disk) && Restorable(store, disk, all)
    ensures |r| == |names| && forall i :: 0 <= i < |names| ==> names[i] in all && r[i] == all[names[i]]
  {
    assert forall i :: 0 <= i < |names| ==> FileOk(store, disk, all, names[i]);
    seq(|names|, i requires 0 <= i < |names| => all[names[i]])
  }

  /** The containers of a group repeat no fingerprint, because each is indexed under one name. */
  lemma GroupHasNoRepeats(names: seq<Buffer>, disk: map<Buffer, Buffer>, store: map<Buffer, Buffer>, all: map<Buffer, seq<Entry>>)
    requires NamesOk(names, disk) && Restorable(store, disk, all)
    ensures NoRepeats(FilesOf(names, disk, store, all))
  {
    var files: seq<seq<Entry>> := FilesOf(names, disk, store, all);
    forall i: nat, j: nat, i': nat, j': nat | 0 <= i < |files| && 0 <= j < |files[i]| && 0 <= i' < |files| && 0 <= j' < |files[i']|
      && files[i][j].hash == files[i'][j'].hash
      ensures i == i' && j == j'
    {
      assert FileOk(store, disk, all, names[i]) && FileOk(store, disk, all, names[i']);
    }
  }

  ghost predicate SliceIs(container: Buffer, at: Located, data: Buffer) {
    at.length == |data| && at.offset + at.length <= |container| && container[at.offset..at.offset + at.length] == data
  }

  /** The entry found under a fingerprint, applied to the container chosen by name, gives the
      chunk: the two agree although they are looked up separately. */
  lemma SlotAndEntryAgree(names: seq<Buffer>, disk: map<Buffer, Buffer>, store: map<Buffer, Buffer>, all: map<Buffer, seq<Entry>>,
                          i: nat, container: Buffer, hash: Buffer, data: Buffer)
    requires NamesOk(names, disk) && Restorable(store, disk, all) && i < |names|
    requires hash in store && store[hash] == names[i] && Holds(all, names[i], hash, data)
    requires SlotHolds(container, disk, names[i])
    ensures var index := RestoreIndexOf(FilesOf(names, disk, store, all));
      hash in index && SliceIs(container, index[hash], data) && |data| <= MAX_CHUNK_SIZE
  {
    var entries, files := all[names[i]], FilesOf(names, disk, store, all);
    assert FileOk(store, disk, all, names[i]);
    var j :| 0 <= j < |entries| && entries[j] == Entry(hash, data);
    GroupHasNoRepeats(names, disk, store, all);
    IndexFinds(files, i, j);
    SliceIsChunk(entries, container, j);
  }

  lemma SliceIsChunk(entries: seq<Entry>, container: Buffer, j: nat)
    requires Fits(entries) && Serialise(entries) <= container && j < |entries|
    ensures SliceIs(container, Located(ChunkOffset(entries, j), |entries[j].data|), entries[j].data)
  {
    ParseSerialised(entries, container, j);
  }

  lemma {:induction false} BatchFits(chunks: seq<Buffer>)
    requires forall k :: 0 <= k < |chunks| ==> |chunks[k]| <= MAX_CHUNK_SIZE
    ensures |Batch(chunks)| <= |chunks| * (WORD_SIZE + MAX_CHUNK_SIZE)
  {
    if chunks != [] {
      BatchFits(chunks[..|chunks| - 1]);
    }
  }

  ghost predicate WantedOk(wanted: seq<Wanted>, store: map<Buffer, Buffer>, hashes: seq<Buffer>) {
    && |wanted| == |hashes|
    && forall k :: 0 <= k < |wanted| ==>
         wanted[k].hash == hashes[k] && (hashes[k] in store ==> wanted[k].containerName == store[hashes[k]])
  }

  /** The entries of a group know the place of their container among those held, and no other
      containers are held. */
  ghost predicate GroupOk(wanted: seq<Wanted>, start: nat, end: nat, names: seq<Buffer>)
    requires start <= end <= |wanted|
  {
    && (forall k :: start <= k < end ==>
          wanted[k].containerID < |names| && names[wanted[k].containerID] == wanted[k].containerName)
    && (forall i :: 0 <= i < |names| ==> Named(wanted, start, end, names[i]))
  }

  ghost predicate Named(wanted: seq<Wanted>, start: nat, end: nat, name: Buffer)
    requires start <= end <= |wanted|
  {
    exists k :: start <= k < end && wanted[k].containerName == name
  }

  /** The containers that the entries of a group are in. */
  ghost function GroupNames(wanted: seq<Wanted>, start: nat, end: nat): set<Buffer> {
    set k | start <= k < end && k < |wanted| :: wanted[k].containerName
  }

  ghost function NameSet(names: seq<Buffer>): (r: set<Buffer>)
    requires Apart(names)
    ensures |r| == |names| && forall n :: n in r <==> n in names
  {
    if names == [] then {}
    else
      var init, last := names[..|names| - 1], names[|names| - 1];
      assert last !in init && names == init + [last];
      NameSet(init) + {last}
  }

  /** The names held are those of the group, each once. */
  lemma NamesCount(wanted: seq<Wanted>, start: nat, end: nat, names: seq<Buffer>)
    requires start <= end <= |wanted| && GroupOk(wanted, start, end, names) && Apart(names)
    ensures |GroupNames(wanted, start, end)| == |names|
  {
    forall n ensures n in GroupNames(wanted, start, end) <==> n in NameSet(names) {
      if n in names {
        var i :| 0 <= i < |names| && names[i] == n;
        assert Named(wanted, start, end, names[i]);
      }
    }
    assert GroupNames(wanted, start, end) == NameSet(names);
  }

  /** A file is missing only if a fingerprint of the group is not indexed. */
  lemma MissingFile(wanted: seq<Wanted>, start: nat, end: nat, names: seq<Buffer>, i: nat, disk: map<Buffer, Buffer>,
                    store: map<Buffer, Buffer>, all: map<Buffer, seq<Entry>>, hashes: seq<Buffer>, chunks: seq<Buffer>)
    requires BatchOk(store, disk, all, hashes, chunks) && WantedOk(wanted, store, hashes)
    requires start <= end <= |wanted| && GroupOk(wanted, start, end, names) && i < |names| && names[i] !in disk
    ensures !AllIndexed(store, hashes, start, end)
  {
    assert Named(wanted, start, end, names[i]);
    var k :| start <= k < end && wanted[k].containerName == names[i];
    assert HashOk(store, disk, all, hashes[k]);
    assert hashes[k] !in store;
  }

  ghost predicate Ready(w: Wanted, index: map<Buffer, Located>, containers: seq<Buffer>, data: Buffer) {
    w.containerID < |containers| && w.hash in index && SliceIs(containers[w.containerID], index[w.hash], data)
  }

  /** What the restore index says of an entry: its chunk, or nothing if it is not indexed. */
  ghost predicate Resolved(w: Wanted, store: map<Buffer, Buffer>, index: map<Buffer, Located>, containers: seq<Buffer>, data: Buffer) {
    if w.hash in store then Ready(w, index, containers, data) else w.hash !in index
  }

  lemma AllResolved(wanted: seq<Wanted>, start: nat, end: nat, names: seq<Buffer>, containers: seq<Buffer>, disk: map<Buffer, Buffer>,
                    store: map<Buffer, Buffer>, all: map<Buffer, seq<Entry>>, hashes: seq<Buffer>, chunks: seq<Buffer>)
    requires BatchOk(store, disk, all, hashes, chunks) && WantedOk(wanted, store, hashes)
    requires start <= end <= |wanted| && GroupOk(wanted, start, end, names)
    requires NamesOk(names, disk) && Loaded(containers, names, disk) && Restorable(store, disk, all)
    ensures var index := RestoreIndexOf(FilesOf(names, disk, store, all));
      forall k :: start <= k < end ==> Resolved(wanted[k], store, index, containers, chunks[k])
  {
    var index := RestoreIndexOf(FilesOf(names, disk, store, all));
    forall k | start <= k < end
      ensures Resolved(wanted[k], store, index, containers, chunks[k])
    {
      var w := wanted[k];
      assert HeldAt(store, all, hashes, chunks, k);
      if w.hash in store {
        assert SlotHolds(containers[w.containerID], disk, names[w.containerID]);
        SlotAndEntryAgree(names, disk, store, all, w.containerID, containers[w.containerID], w.hash, chunks[k]);
      } else {
        NotFound(names, disk, store, all, w.hash);
      }
    }
  }

  lemma NotFound(names: seq<Buffer>, disk: map<Buffer, Buffer>, store: map<Buffer, Buffer>, all: map<Buffer, seq<Entry>>, hash: Buffer)
    requires NamesOk(names, disk) && Restorable(store, disk, all) && hash !in store
    ensures hash !in RestoreIndexOf(FilesOf(names, disk, store, all))
  {
    var files: seq<seq<Entry>> := FilesOf(names, disk, store, all);
    forall i | 0 <= i < |files| ensures FileOk(store, disk, all, names[i]) { }
    assert forall i, j | 0 <= i < |files| && 0 <= j < |files[i]| :: files[i][j].hash in store;
    if hash in RestoreIndexOf(files) {
      var i, j := IndexOnlyHas(files, hash);
    }
  }

  /** The map of a group's containers is the inverse of its list of names. */
  ghost predicate PlacesOk(places: map<Buffer, nat>, names: seq<Buffer>) {
    && (forall n :: n in places ==> places[n] < |names| && names[places[n]] == n)
    && (forall i :: 0 <= i < |names| ==> names[i] in places && places[names[i]] == i)
  }

  /** A group that still has room. */
  ghost predicate GroupState(wanted: seq<Wanted>, start: nat, end: nat, places: map<Buffer, nat>, names: seq<Buffer>)
    requires start <= end <= |wanted|
  {
    GroupOk(wanted, start, end, names) && PlacesOk(places, names) && |names| < CONTAINER_CAPPING_VALUE
  }

  /** The messages that answer a batch. */
  ghost function Reply(chunks: seq<Buffer>): seq<Message> {
    (if chunks == [] then [] else [Chunks(|chunks|, Batch(chunks))]) + [End(0, [])]
  }

  lemma ChunksWithinLimit(store: map<Buffer, Buffer>, disk: map<Buffer, Buffer>, all: map<Buffer, seq<Entry>>,
                          hashes: seq<Buffer>, chunks: seq<Buffer>)
    requires BatchOk(store, disk, all, hashes, chunks)
    ensures forall k :: 0 <= k < |chunks| ==> |chunks[k]| <= MAX_CHUNK_SIZE
    ensures FilesFit(disk)
  {
    forall k | 0 <= k < |chunks|
      ensures |chunks[k]| <= MAX_CHUNK_SIZE
    {
      assert HeldAt(store, all, hashes, chunks, k) && HashOk(store, disk, all, hashes[k]);
      if hashes[k] in store {
        assert Holds(all, store[hashes[k]], hashes[k], chunks[k]);
        assert FileOk(store, disk, all, store[hashes[k]]);
      }
    }
    forall id | id in disk ensures |disk[id]| <= MAX_CONTAINER_SIZE { assert FileOk(store, disk, all, id); }
  }

  /** There is room for one more record until the batch is full. */
  lemma RoomForNext(chunks: seq<Buffer>, k: nat, batchSize: nat)
    requires k < |chunks| <= batchSize && forall m :: 0 <= m < |chunks| ==> |chunks[m]| <= MAX_CHUNK_SIZE
    ensures |Batch(chunks[..k])| + WORD_SIZE + |chunks[k]| <= batchSize * (WORD_SIZE + MAX_CHUNK_SIZE)
  {
    BatchFits(chunks[..k]);
    assert (k + 1) * (WORD_SIZE + MAX_CHUNK_SIZE) <= batchSize * (WORD_SIZE + MAX_CHUNK_SIZE);
  }

  lemma FullWhenDivisible(k: nat, batchSize: nat)
    requires 0 < k <= batchSize
    ensures k % batchSize == 0 <==> k == batchSize
  {
  }

  class Decoder {
    const cache: ReadCache
    const batchSize: nat
    const dataBuffer: array<byte>
    var dataSize: nat
    var itemNum: nat
    var idBuffer: seq<Buffer>
    var containers: seq<Buffer>
    var sent: seq<Message>

    ghost predicate Valid()
      reads this
    {
      && batchSize >= 1 && dataBuffer.Length == batchSize * (WORD_SIZE + MAX_CHUNK_SIZE)
      && |containers| == CONTAINER_CAPPING_VALUE && PoolOk(containers)
    }

    constructor (batchSize: nat, cacheSize: nat)
      requires batchSize >= 1 && cacheSize >= 1
      ensures Valid() && cache.Valid() && cache.lru.Contents() == [] && sent == [] && idBuffer == []
      ensures this.batchSize == batchSize && cache.cacheSize == cacheSize
      ensures fresh(dataBuffer) && fresh(cache) && fresh(cache.lru)
    {
      this.batchSize := batchSize;
      cache := new ReadCache(cacheSize);
      dataBuffer := new byte[batchSize * (WORD_SIZE + MAX_CHUNK_SIZE)](_ => 0);
      dataSize, itemNum, idBuffer, sent := 0, 0, [], [];
      containers := seq(CONTAINER_CAPPING_VALUE, _ => seq(MAX_CONTAINER_SIZE, _ => 0));
    }

    /** Load one container, from the cache or else from its file. */
    method GetContainer(i: nat, name: Buffer, disk: map<Buffer, Buffer>) returns (ok: bool)
      requires Valid() && cache.Ready(disk) && FilesFit(disk) && i < CONTAINER_CAPPING_VALUE
      modifies this`containers, cache, cache.lru
      ensures Valid() && cache.Ready(disk)
      ensures ok <==> name in disk
      ensures if ok then SlotHolds(containers[i], disk, name) && containers == old(containers)[i := containers[i]]
              else containers == old(containers)
      ensures cache.Cached() == UsedOne(old(cache.Cached()), name, cache.cacheSize, disk)
    {
      cache.ReadyMeans(disk);
      var hit := cache.ExistsInCache(name);
      if hit {
        ReadHit(i, name, disk);
        return true;
      }
      if name !in disk {
        return false;
      }
      ReadFile(i, name, disk);
      return true;
    }

    /** Copy a cached container into place `i`. */
    method ReadHit(i: nat, name: Buffer, ghost disk: map<Buffer, Buffer>)
      requires Valid() && cache.Valid() && cache.Agrees(disk) && i < CONTAINER_CAPPING_VALUE
      requires Has(cache.lru.Contents(), name)
      modifies this`containers, cache, cache.lru
      ensures Valid() && cache.Ready(disk)
      ensures SlotHolds(containers[i], disk, name) && containers == old(containers)[i := containers[i]]
      ensures cache.Cached() == Touch(old(cache.Cached()), name)
    {
      var slot := cache.ReadFromCache(name, disk);
      containers := containers[i := slot.value];
      cache.ReadyMeans(disk);
    }

    /** Read a container's file into place `i`, and put it in the cache. */
    method ReadFile(i: nat, name: Buffer, disk: map<Buffer, Buffer>)
      requires Valid() && cache.Valid() && cache.Agrees(disk) && FilesFit(disk) && i < CONTAINER_CAPPING_VALUE
      requires name in disk && !Has(cache.lru.Contents(), name)
      modifies this`containers, cache, cache.lru
      ensures Valid() && cache.Ready(disk)
      ensures SlotHolds(containers[i], disk, name) && containers == old(containers)[i := containers[i]]
      ensures cache.Cached() == Inserted(old(cache.Cached()), name, cache.cacheSize)
    {
      containers := containers[i := Splice(containers[i], 0, disk[name])];
      cache.InsertToCache(name, containers[i], |disk[name]|, disk);
      cache.ReadyMeans(disk);
    }

    /** Load all containers of a group; it fails when a file is missing. */
    method GetReqContainers(disk: map<Buffer, Buffer>) returns (ok: bool)
      requires Valid() && cache.Ready(disk) && FilesFit(disk) && |idBuffer| <= CONTAINER_CAPPING_VALUE
      modifies this`containers, cache, cache.lru
      ensures Valid() && cache.Ready(disk)
      ensures ok <==> forall i :: 0 <= i < |idBuffer| ==> idBuffer[i] in disk
      ensures ok ==> Loaded(containers, idBuffer, disk)
      ensures ok ==> cache.Cached() == UsedAll(old(cache.Cached()), idBuffer, cache.cacheSize, disk)
    {
      ghost var was, names := cache.Cached(), idBuffer;
      assert names[..0] == [];
      for i := 0 to |idBuffer|
        invariant Valid() && cache.Ready(disk) && idBuffer == names
        invariant Loaded(containers, names[..i], disk)
        invariant cache.Cached() == UsedAll(was, names[..i], cache.cacheSize, disk)
      {
        ghost var held, cached := containers, cache.Cached();
        ok := GetContainer(i, idBuffer[i], disk);
        if !ok {
          assert idBuffer[i] !in disk;
          return;
        }
        LoadedStep(held, containers, names, i, disk);
        UsedStep(was, names, i, cache.cacheSize, disk, cached);
      }
      assert names[..|names|] == names;
      assert forall k :: 0 <= k < |idBuffer| ==> SlotHolds(containers[k], disk, idBuffer[k]);
      return true;
    }

    /** Append one record to the message being built. */
    method RecoverOneChunk(offset: nat, length: nat, container: Buffer)
      requires offset + length <= |container| && dataSize + WORD_SIZE + length <= dataBuffer.Length
      modifies this`dataSize, this`itemNum, dataBuffer
      ensures dataSize == old(dataSize) + WORD_SIZE + length && itemNum == old(itemNum) + 1
      ensures dataBuffer[..dataSize] == old(dataBuffer[..dataSize]) + Record(container[offset..offset + length])
    {
      ghost var before := dataBuffer[..];
      CopyInto(dataBuffer, dataSize, LittleEndian(length));
      SplicedPrefix(before, dataSize, LittleEndian(length));
      before := dataBuffer[..];
      CopyInto(dataBuffer, dataSize + WORD_SIZE, container[offset..offset + length]);
      SplicedPrefix(before, dataSize + WORD_SIZE, container[offset..offset + length]);
      dataSize := dataSize + WORD_SIZE + length;
      itemNum := itemNum + 1;
    }

    method SendBatchChunks()
      requires dataSize <= dataBuffer.Length
      modifies this`dataSize, this`itemNum, this`sent
      ensures sent == old(sent) + [Chunks(old(itemNum), old(dataBuffer[..dataSize]))]
      ensures dataSize == 0 && itemNum == 0
    {
      sent := sent + [Chunks(itemNum, dataBuffer[..dataSize])];
      dataSize, itemNum := 0, 0;
    }

    /** The first `k` chunks are in the buffer, or a full message with them has been sent. */
    ghost predicate Progress(before: seq<Message>, chunks: seq<Buffer>, k: nat)
      reads this, dataBuffer
      requires k <= |chunks|
    {
      if k < batchSize then
        && sent == before && itemNum == k
        && dataSize == |Batch(chunks[..k])| <= dataBuffer.Length && dataBuffer[..dataSize] == Batch(chunks[..k])
      else
        k == batchSize && sent == before + [Chunks(k, Batch(chunks[..k]))] && itemNum == 0 && dataSize == 0
    }

    method EmitOne(offset: nat, length: nat, container: Buffer, ghost before: seq<Message>, ghost chunks: seq<Buffer>, ghost k: nat)
      requires batchSize >= 1 && dataBuffer.Length == batchSize * (WORD_SIZE + MAX_CHUNK_SIZE)
      requires k < |chunks| <= batchSize && forall m :: 0 <= m < |chunks| ==> |chunks[m]| <= MAX_CHUNK_SIZE
      requires length == |chunks[k]| && offset + length <= |container| && container[offset..offset + length] == chunks[k]
      requires Progress(before, chunks, k)
      modifies this`dataSize, this`itemNum, this`sent, dataBuffer
      ensures Progress(before, chunks, k + 1)
    {
      RoomForNext(chunks, k, batchSize);
      BatchStep(chunks, k);
      RecoverOneChunk(offset, length, container);
      FullWhenDivisible(k + 1, batchSize);
      if itemNum % batchSize == 0 {
        SendBatchChunks();
      }
    }

    /** Emit the chunks of a group whose containers are held.  The source does not check that
        it finds a fingerprint; the model stops there. */
    method EmitGroup(start: nat, end: nat, wanted: seq<Wanted>, index: map<Buffer, Located>, ghost store: map<Buffer, Buffer>,
                     ghost hashes: seq<Buffer>, ghost chunks: seq<Buffer>, ghost before: seq<Message>)
      returns (ok: bool)
      requires batchSize >= 1 && dataBuffer.Length == batchSize * (WORD_SIZE + MAX_CHUNK_SIZE)
      requires start <= end <= |wanted| == |chunks| == |hashes| <= batchSize
      requires forall k :: start <= k < end ==> wanted[k].hash == hashes[k]
      requires forall m :: 0 <= m < |chunks| ==> |chunks[m]| <= MAX_CHUNK_SIZE
      requires forall k :: start <= k < end ==> Resolved(wanted[k], store, index, containers, chunks[k])
      requires Progress(before, chunks, start)
      modifies this`dataSize, this`itemNum, this`sent, dataBuffer
      ensures ok <==> AllIndexed(store, hashes, start, end)
      ensures if ok then Progress(before, chunks, end) else sent == before
    {
      for k := start to end
        invariant Progress(before, chunks, k)
        invariant AllIndexed(store, hashes, start, k)
      {
        var w := wanted[k];
        assert Resolved(w, store, index, containers, chunks[k]);
        if w.hash !in index {
          return false;
        }
        EmitOne(index[w.hash].offset, index[w.hash].length, containers[w.containerID], before, chunks, k);
      }
      return true;
    }

    /** The restore index of a group whose containers are held finds exactly its indexed chunks. */
    method IndexGroup(ghost start: nat, ghost end: nat, ghost wanted: seq<Wanted>, ghost disk: map<Buffer, Buffer>,
                      ghost store: map<Buffer, Buffer>, ghost all: map<Buffer, seq<Entry>>,
                      ghost hashes: seq<Buffer>, ghost chunks: seq<Buffer>)
      returns (index: map<Buffer, Located>)
      requires BatchOk(store, disk, all, hashes, chunks) && WantedOk(wanted, store, hashes)
      requires start <= end <= |wanted| && GroupOk(wanted, start, end, idBuffer)
      requires NamesOk(idBuffer, disk) && Loaded(containers, idBuffer, disk)
      ensures forall k :: start <= k < end ==> Resolved(wanted[k], store, index, containers, chunks[k])
    {
      LoadedFiles(containers, idBuffer, disk, store, all);
      AllResolved(wanted, start, end, idBuffer, containers, disk, store, all, hashes, chunks);
      index := IndexConstruct(containers, |idBuffer|, FilesOf(idBuffer, disk, store, all));
    }

    /** Load the containers of a group and emit its chunks; it fails, with nothing sent, exactly
        when a fingerprint of the group is not indexed. */
    method SendGroup(start: nat, end: nat, wanted: seq<Wanted>, disk: map<Buffer, Buffer>,
                     ghost store: map<Buffer, Buffer>, ghost all: map<Buffer, seq<Entry>>,
                     ghost hashes: seq<Buffer>, ghost chunks: seq<Buffer>, ghost before: seq<Message>)
      returns (ok: bool)
      requires Valid() && cache.Ready(disk)
      requires BatchOk(store, disk, all, hashes, chunks) && WantedOk(wanted, store, hashes)
      requires start < end <= |wanted| <= batchSize && GroupOk(wanted, start, end, idBuffer)
      requires Apart(idBuffer) && |idBuffer| <= CONTAINER_CAPPING_VALUE
      requires Progress(before, chunks, start)
      modifies this`containers, this`dataSize, this`itemNum, this`sent, dataBuffer, cache, cache.lru
      ensures Valid() && cache.Ready(disk)
      ensures ok <==> AllIndexed(store, hashes, start, end)
      ensures if ok then Progress(before, chunks, end) else sent == before
    {
      ChunksWithinLimit(store, disk, all, hashes, chunks);
      var index;
      ok, index := LoadGroup(start, end, wanted, disk, store, all, hashes, chunks);
      if ok {
        ok := EmitGroup(start, end, wanted, index, store, hashes, chunks, before);
      }
    }

    method LoadGroup(ghost start: nat, ghost end: nat, ghost wanted: seq<Wanted>, disk: map<Buffer, Buffer>,
                     ghost store: map<Buffer, Buffer>, ghost all: map<Buffer, seq<Entry>>,
                     ghost hashes: seq<Buffer>, ghost chunks: seq<Buffer>)
      returns (ok: bool, index: map<Buffer, Located>)
      requires Valid() && cache.Ready(disk) && FilesFit(disk)
      requires BatchOk(store, disk, all, hashes, chunks) && WantedOk(wanted, store, hashes)
      requires start <= end <= |wanted| && GroupOk(wanted, start, end, idBuffer)
      requires Apart(idBuffer) && |idBuffer| <= CONTAINER_CAPPING_VALUE
      modifies this`containers, cache, cache.lru
      ensures Valid() && cache.Ready(disk)
      ensures ok ==> forall k :: start <= k < end ==> Resolved(wanted[k], store, index, containers, chunks[k])
      ensures !ok ==> !AllIndexed(store, hashes, start, end)
    {
      index := map[];
      ok := GetReqContainers(disk);
      if ok {
        index := IndexGroup(start, end, wanted, disk, store, all, hashes, chunks);
      } else {
        ghost var i :| 0 <= i < |idBuffer| && idBuffer[i] !in disk;
        MissingFile(wanted, start, end, idBuffer, i, disk, store, all, hashes, chunks);
      }
    }

    /** Take the fingerprints out of the buffer, which the answer will overwrite, and look up
        their containers.  A fingerprint that is not indexed is only logged, and keeps the
        name found for the one before it. */
    method ReadWanted(recipeNum: nat, store: map<Buffer, Buffer>, ghost hashes: seq<Buffer>) returns (wanted: seq<Wanted>)
      requires recipeNum == |hashes| && RecipeOk(hashes) && Recipe(hashes) <= dataBuffer[..]
      ensures |wanted| == recipeNum
      ensures forall k :: 0 <= k < recipeNum ==>
        wanted[k].hash == hashes[k] && (hashes[k] in store ==> wanted[k].containerName == store[hashes[k]])
    {
      wanted := [];
      var name := seq(CONTAINER_ID_LENGTH, _ => 0);
      var offset := 0;
      RecipeSize(hashes);
      for i := 0 to recipeNum
        invariant |wanted| == i && offset == CHUNK_HASH_SIZE * i
        invariant forall k :: 0 <= k < i ==>
          wanted[k].hash == hashes[k] && (hashes[k] in store ==> wanted[k].containerName == store[hashes[k]])
      {
        RecipeSlice(hashes, i);
        SliceOfPrefix(Recipe(hashes), dataBuffer[..], offset, offset + CHUNK_HASH_SIZE);
        var hash := dataBuffer[..][offset..offset + CHUNK_HASH_SIZE];
        if hash in store {
          name := store[hash];
        }
        wanted := wanted + [Wanted(hash, name, 0)];
        offset := offset + CHUNK_HASH_SIZE;
      }
    }

    /** The place of a container in the group, which is a new one if it is not yet there. */
    method PlaceOf(name: Buffer, places: map<Buffer, nat>) returns (id: nat, places': map<Buffer, nat>)
      requires PlacesOk(places, idBuffer)
      modifies this`idBuffer
      ensures PlacesOk(places', idBuffer) && id < |idBuffer| && idBuffer[id] == name
      ensures idBuffer == if name in places then old(idBuffer) else old(idBuffer) + [name]
    {
      if name in places {
        return places[name], places;
      }
      id := |idBuffer|;
      places' := places[name := id];
      idBuffer := idBuffer + [name];
    }

    /** What is left in the buffer after the last entry is sent. */
    method SendRest(ghost before: seq<Message>, ghost chunks: seq<Buffer>)
      requires 0 < |chunks| <= batchSize && Progress(before, chunks, |chunks|)
      modifies this`dataSize, this`itemNum, this`sent
      ensures sent == before + [Chunks(|chunks|, Batch(chunks))] && dataSize == 0 && itemNum == 0
    {
      assert chunks[..|chunks|] == chunks;
      FullWhenDivisible(|chunks|, batchSize);
      if itemNum % batchSize != 0 {
        SendBatchChunks();
      }
    }

    /** A batch is answered by its chunks in order, in one message, and an end message, exactly
        when all its fingerprints are indexed; otherwise nothing is sent.  The containers are
        loaded in groups of at most 16. */
    method ProcessRecipeBatch(recipeNum: nat, store: map<Buffer, Buffer>, disk: map<Buffer, Buffer>,
                              ghost all: map<Buffer, seq<Entry>>, ghost hashes: seq<Buffer>, ghost chunks: seq<Buffer>)
      returns (ok: bool)
      requires Valid() && cache.Ready(disk) && BatchOk(store, disk, all, hashes, chunks)
      requires recipeNum == |hashes| <= batchSize && Recipe(hashes) <= dataBuffer[..]
      requires itemNum == 0 && dataSize == 0 && idBuffer == []
      modifies this`containers, this`idBuffer, this`dataSize, this`itemNum, this`sent, dataBuffer
      modifies cache, cache.lru
      ensures Valid() && cache.Ready(disk)
      ensures ok <==> AllIndexed(store, hashes, 0, |hashes|)
      ensures ok ==> itemNum == 0 && dataSize == 0 && idBuffer == []
      ensures sent == old(sent) + if ok then Reply(chunks) else []
    {
      var wanted := ReadWanted(recipeNum, store, hashes);
      ok := SendAll(wanted, disk, store, all, hashes, chunks);
      if ok {
        ProcessRecipeTailBatch();
      }
    }

    method ProcessRecipeTailBatch()
      requires dataSize <= dataBuffer.Length
      modifies this`sent
      ensures sent == old(sent) + [End(itemNum, dataBuffer[..dataSize])]
    {
      sent := sent + [End(itemNum, dataBuffer[..dataSize])];
    }

    method SendAll(entries: seq<Wanted>, disk: map<Buffer, Buffer>, ghost store: map<Buffer, Buffer>,
                   ghost all: map<Buffer, seq<Entry>>, ghost hashes: seq<Buffer>, ghost chunks: seq<Buffer>)
      returns (ok: bool)
      requires Valid() && cache.Ready(disk) && BatchOk(store, disk, all, hashes, chunks)
      requires WantedOk(entries, store, hashes) && |entries| <= batchSize
      requires itemNum == 0 && dataSize == 0 && idBuffer == []
      modifies this`containers, this`idBuffer, this`dataSize, this`itemNum, this`sent, dataBuffer
      modifies cache, cache.lru
      ensures Valid() && cache.Ready(disk)
      ensures ok <==> AllIndexed(store, hashes, 0, |hashes|)
      ensures ok ==> idBuffer == [] && dataSize == 0 && itemNum == 0
      ensures sent == old(sent) + if ok && chunks != [] then [Chunks(|chunks|, Batch(chunks))] else []
    {
      var wanted, recipeNum := entries, |entries|;
      var places := map[];
      var start, i := 0, 0;
      ghost var before := sent;
      assert chunks[..0] == [];
      while i < recipeNum
        invariant At(i, start, wanted, places, disk, store, hashes, chunks, before)
      {
        ok, wanted, places, start := Step(i, start, wanted, places, disk, store, all, hashes, chunks, before);
        if !ok {
          return;
        }
        i := i + 1;
      }
      return true;
    }

    /** Before entry `i`: the group began at `start`, and everything before it is sent or in
        the buffer; after the last entry, everything is sent. */
    ghost predicate At(i: nat, start: nat, wanted: seq<Wanted>, places: map<Buffer, nat>, disk: map<Buffer, Buffer>,
                       store: map<Buffer, Buffer>, hashes: seq<Buffer>, chunks: seq<Buffer>, before: seq<Message>)
      reads this, dataBuffer, cache, cache.lru
    {
      && start <= i <= |wanted| == |chunks| == |hashes| <= batchSize
      && Valid() && cache.Ready(disk) && WantedOk(wanted, store, hashes) && AllIndexed(store, hashes, 0, start)
      && GroupState(wanted, start, i, places, idBuffer)
      && (i < |wanted| || i == 0 ==> Progress(before, chunks, start))
      && (i == |wanted| ==> start == i && idBuffer == [])
      && (0 < i == |wanted| ==> AllSent(before, chunks))
    }

    ghost predicate AllSent(before: seq<Message>, chunks: seq<Buffer>)
      reads this
    {
      sent == before + [Chunks(|chunks|, Batch(chunks))] && dataSize == 0 && itemNum == 0
    }

    method Step(i: nat, start: nat, wanted: seq<Wanted>, places: map<Buffer, nat>, disk: map<Buffer, Buffer>,
                ghost store: map<Buffer, Buffer>, ghost all: map<Buffer, seq<Entry>>,
                ghost hashes: seq<Buffer>, ghost chunks: seq<Buffer>, ghost before: seq<Message>)
      returns (ok: bool, wanted': seq<Wanted>, places': map<Buffer, nat>, start': nat)
      requires At(i, start, wanted, places, disk, store, hashes, chunks, before) && i < |wanted|
      requires BatchOk(store, disk, all, hashes, chunks)
      modifies this`containers, this`idBuffer, this`dataSize, this`itemNum, this`sent, dataBuffer
      modifies cache, cache.lru
      ensures Valid() && cache.Ready(disk)
      ensures ok ==> At(i + 1, start', wanted', places', disk, store, hashes, chunks, before) && |wanted'| == |wanted|
      ensures ok && start' != start <==> ok && (i + 1 == |wanted| || |GroupNames(wanted', start, i + 1)| == CONTAINER_CAPPING_VALUE)
      ensures !ok ==> sent == before && !AllIndexed(store, hashes, 0, |hashes|)
    {
      wanted', places' := Enter(wanted, start, i, places, store, hashes);
      ok, start' := true, start;
      if |idBuffer| == CONTAINER_CAPPING_VALUE || i == |wanted| - 1 {
        ok := CloseGroup(start, i + 1, wanted', disk, store, all, hashes, chunks, before);
        start', places' := i + 1, map[];
      }
    }

    /** Send a group and forget its containers; after the last one, send the rest. */
    method CloseGroup(start: nat, end: nat, wanted: seq<Wanted>, disk: map<Buffer, Buffer>,
                      ghost store: map<Buffer, Buffer>, ghost all: map<Buffer, seq<Entry>>,
                      ghost hashes: seq<Buffer>, ghost chunks: seq<Buffer>, ghost before: seq<Message>)
      returns (ok: bool)
      requires Valid() && cache.Ready(disk)
      requires BatchOk(store, disk, all, hashes, chunks) && WantedOk(wanted, store, hashes)
      requires start < end <= |wanted| <= batchSize && GroupOk(wanted, start, end, idBuffer)
      requires Apart(idBuffer) && |idBuffer| <= CONTAINER_CAPPING_VALUE
      requires Progress(before, chunks, start)
      modifies this`containers, this`idBuffer, this`dataSize, this`itemNum, this`sent, dataBuffer
      modifies cache, cache.lru
      ensures Valid() && cache.Ready(disk) && (ok ==> idBuffer == [])
      ensures ok <==> AllIndexed(store, hashes, start, end)
      ensures if !ok then sent == before else if end == |wanted| then AllSent(before, chunks) else Progress(before, chunks, end)
    {
      ok := SendGroup(start, end, wanted, disk, store, all, hashes, chunks, before);
      if ok {
        FinishGroup(end == |wanted|, end, before, chunks);
      }
    }

    method FinishGroup(last: bool, ghost end: nat, ghost before: seq<Message>, ghost chunks: seq<Buffer>)
      requires 0 < end <= |chunks| <= batchSize && Progress(before, chunks, end)
      requires last <==> end == |chunks|
      modifies this`idBuffer, this`dataSize, this`itemNum, this`sent
      ensures idBuffer == []
      ensures if last then AllSent(before, chunks) else Progress(before, chunks, end)
    {
      if last {
        SendRest(before, chunks);
      }
      idBuffer := [];
    }

    /** Give entry `i` its place in the group. */
    method Enter(wanted: seq<Wanted>, ghost start: nat, i: nat, places: map<Buffer, nat>,
                 ghost store: map<Buffer, Buffer>, ghost hashes: seq<Buffer>)
      returns (wanted': seq<Wanted>, places': map<Buffer, nat>)
      requires start <= i < |wanted| && WantedOk(wanted, store, hashes)
      requires GroupState(wanted, start, i, places, idBuffer)
      modifies this`idBuffer
      ensures |wanted'| == |wanted| && WantedOk(wanted', store, hashes)
      ensures PlacesOk(places', idBuffer) && Apart(idBuffer) && GroupOk(wanted', start, i + 1, idBuffer)
      ensures |GroupNames(wanted', start, i + 1)| == |idBuffer| <= CONTAINER_CAPPING_VALUE
    {
      var id;
      id, places' := PlaceOf(wanted[i].containerName, places);
      wanted' := wanted[i := wanted[i].(containerID := id)];
      Entered(wanted, start, i, old(idBuffer), id, idBuffer);
      NamesCount(wanted', start, i + 1, idBuffer);
    }

    /** The download loop: each request is received into the same buffer that its answer is
        built in.  It goes on as long as all fingerprints are indexed. */
    method Run(requests: seq<seq<Buffer>>, store: map<Buffer, Buffer>, disk: map<Buffer, Buffer>,
               ghost all: map<Buffer, seq<Entry>>, ghost answers: seq<seq<Buffer>>)
      returns (answered: nat)
      requires Valid() && cache.Ready(disk) && |answers| == |requests| && idBuffer == []
      requires forall r :: 0 <= r < |requests| ==>
        |requests[r]| <= batchSize && BatchOk(store, disk, all, requests[r], answers[r])
      modifies this`containers, this`idBuffer, this`dataSize, this`itemNum, this`sent, dataBuffer
      modifies cache, cache.lru
      ensures Valid() && cache.Ready(disk)
      ensures answered <= |requests| && sent == old(sent) + Replies(answers[..answered])
      ensures forall r :: 0 <= r < answered ==> Complete(store, requests[r])
      ensures answered < |requests| ==> !Complete(store, requests[answered])
    {
      for r := 0 to |requests|
        invariant Valid() && cache.Ready(disk) && idBuffer == []
        invariant sent == old(sent) + Replies(answers[..r])
        invariant forall q :: 0 <= q < r ==> Complete(store, requests[q])
      {
        var ok := Receive(requests[r], store, disk, all, answers[r]);
        if !ok {
          return r;
        }
        assert answers[..r + 1][..r] == answers[..r];
      }
      return |requests|;
    }

    method Receive(request: seq<Buffer>, store: map<Buffer, Buffer>, disk: map<Buffer, Buffer>,
                   ghost all: map<Buffer, seq<Entry>>, ghost answer: seq<Buffer>)
      returns (ok: bool)
      requires Valid() && cache.Ready(disk) && idBuffer == []
      requires |request| <= batchSize && BatchOk(store, disk, all, request, answer)
      modifies this`containers, this`idBuffer, this`dataSize, this`itemNum, this`sent, dataBuffer
      modifies cache, cache.lru
      ensures Valid() && cache.Ready(disk) && (ok ==> idBuffer == [])
      ensures ok <==> Complete(store, request)
      ensures sent == old(sent) + if ok then Reply(answer) else []
    {
      RecipeSize(request);
      RequestFits(|request|, batchSize);
      CopyInto(dataBuffer, 0, Recipe(request));
      itemNum, dataSize := 0, 0;
      ok := ProcessRecipeBatch(|request|, store, disk, all, request, answer);
    }
  }

  /** An entry that has got its place belongs to the group. */
  lemma Entered(wanted: seq<Wanted>, start: nat, i: nat, names: seq<Buffer>, id: nat, names': seq<Buffer>)
    requires start <= i < |wanted| && GroupOk(wanted, start, i, names) && id < |names'|
    requires names' == names || names' == names + [wanted[i].containerName]
    requires names'[id] == wanted[i].containerName
    ensures GroupOk(wanted[i := wanted[i].(containerID := id)], start, i + 1, names')
  {
    var wanted' := wanted[i := wanted[i].(containerID := id)];
    forall j | 0 <= j < |names'|
      ensures Named(wanted', start, i + 1, names'[j])
    {
      if j < |names| {
        assert Named(wanted, start, i, names[j]);
        var k :| start <= k < i && wanted[k].containerName == names[j];
        assert wanted'[k].containerName == names'[j];
      } else {
        assert wanted'[i].containerName == names'[j];
      }
    }
  }

  lemma RequestFits(n: nat, batchSize: nat)
    requires n <= batchSize
    ensures CHUNK_HASH_SIZE * n <= batchSize * (WORD_SIZE + MAX_CHUNK_SIZE)
  {
  }

  ghost function Replies(answers: seq<seq<Buffer>>): seq<Message> {
    if answers == [] then [] else Replies(answers[..|answers| - 1]) + Reply(answers[|answers| - 1])
  }

  lemma LoadedFiles(containers: seq<Buffer>, names: seq<Buffer>, disk: map<Buffer, Buffer>, store: map<Buffer, Buffer>, all: map<Buffer, seq<Entry>>)
    requires NamesOk(names, disk) && Restorable(store, disk, all) && Loaded(containers, names, disk)
    ensures var files := FilesOf(names, disk, store, all);
      forall i :: 0 <= i < |names| ==> Fits(files[i]) && Serialise(files[i]) <= containers[i]
  {
    forall i | 0 <= i < |names|
      ensures Fits(FilesOf(names, disk, store, all)[i]) && Serialise(FilesOf(names, disk, store, all)[i]) <= containers[i]
    {
      assert FileOk(store, disk, all, names[i]) && SlotHolds(containers[i], disk, names[i]);
    }
  }
}
