/** The deduplication index: batches of chunks come in, new chunks are saved and indexed. */
module PlainIndex {

  import opened Bytes
  import opened ContainerFormat
  import opened Packing
  import opened Dedup
  import opened StorageCore
  import opened IndexFile
  import StatFile

  class PlainIndex {
    const db: InMemoryDatabase
    var uniqueChunkNum: nat
    var uniqueDataSize: nat
    var writtenChunkNum: nat
    var writtenDataSize: nat
    var totalRecvDataSize: nat
    var totalBatchNum: nat
    var logicalDataSize: nat
    var logicalChunkNum: nat
    var compressedDataSize: nat

    ghost function Contents(): Index
      reads this, db
    {
      Index(db.indexObj, uniqueChunkNum, uniqueDataSize)
    }

    function Stats(): StatFile.Stats
      reads this
    {
      StatFile.Stats(logicalDataSize, logicalChunkNum, uniqueDataSize, uniqueChunkNum, compressedDataSize)
    }

    /** The storage core's counters, which start at zero, agree with those of the index; so it
        is on a server that has no statistics file yet. */
    ghost predicate InStep()
      reads this
    {
      writtenChunkNum == uniqueChunkNum && writtenDataSize == uniqueDataSize
    }

    /** The counters are those of the statistics file, over whatever the database has loaded;
        those of the storage core start at zero. */
    constructor (db: InMemoryDatabase, statFile: StatFile.File)
      ensures this.db == db && Stats() == StatFile.Loaded(statFile)
      ensures Contents() == Index(db.indexObj, StatFile.Loaded(statFile).uniqueChunkNum, StatFile.Loaded(statFile).uniqueDataSize)
      ensures writtenChunkNum == writtenDataSize == 0
      ensures statFile == StatFile.Missing ==> InStep() && Contents() == Index(db.indexObj, 0, 0)
    {
      this.db := db;
      var st := StatFile.Loaded(statFile);
      logicalDataSize, logicalChunkNum, compressedDataSize := st.logicalDataSize, st.logicalChunkNum, st.compressedDataSize;
      uniqueDataSize, uniqueChunkNum := st.uniqueDataSize, st.uniqueChunkNum;
      writtenChunkNum, writtenDataSize, totalRecvDataSize, totalBatchNum := 0, 0, 0, 0;
    }

    /** The destructor: an index constructed on the file that it leaves has the same counters. */
    method Close() returns (statFile: StatFile.File)
      ensures statFile == StatFile.Present(StatFile.Written(Stats()))
      ensures StatFile.Fits64(Stats()) ==> StatFile.Loaded(statFile) == Stats()
    {
      statFile := StatFile.Present(StatFile.Written(Stats()));
      if StatFile.Fits64(Stats()) {
        StatFile.StatsRoundTrip(Stats());
      }
    }

    method SaveChunk(data: Buffer, hash: Buffer, client: ClientVar, newId: Buffer) returns (containerName: Buffer)
      requires client.Valid() && EntryOk(Entry(hash, data))
      modifies client, client.body, client.header, this`writtenChunkNum, this`writtenDataSize
      ensures client.Valid()
      ensures client.Contents() == Write(old(client.Contents()), Entry(hash, data), newId)
      ensures containerName == client.id
      ensures writtenChunkNum == old(writtenChunkNum) + 1 && writtenDataSize == old(writtenDataSize) + |data|
    {
      containerName := client.WriteContainer(data, hash, newId);
      writtenDataSize := writtenDataSize + |data|;
      writtenChunkNum := writtenChunkNum + 1;
    }

    /** The part of `ProcessOneBatch` that runs under the index lock. */
    method ProcessOne(data: Buffer, client: ClientVar, H: Buffer -> Buffer, newId: Buffer)
      requires client.Valid() && |data| <= MAX_CHUNK_SIZE && |H(data)| == CHUNK_HASH_SIZE
      modifies db, this`uniqueChunkNum, this`uniqueDataSize, this`writtenChunkNum, this`writtenDataSize
      modifies client, client.body, client.header
      ensures client.Valid()
      ensures Upload(Contents(), client.Contents())
        == UploadOne(Upload(old(Contents()), old(client.Contents())), H, data, newId)
      ensures old(InStep()) ==> InStep()
    {
      var hash := H(data);
      var status, name := db.Query(hash);
      if !status {
        name := SaveChunk(data, hash, client, newId);
        db.Insert(hash, name);
        uniqueChunkNum := uniqueChunkNum + 1;
        uniqueDataSize := uniqueDataSize + |data|;
      }
    }

    /** A batch received in `buf` has the effect of uploading its chunks one by one, and the
        buffer is cleared.  `ids[i]` is what `CreateUUID` returns if chunk `i` needs a new
        container. */
    method ProcessOneBatch(buf: array<byte>, chunkNum: nat, dataSize: nat, client: ClientVar,
                           H: Buffer -> Buffer, ids: seq<Buffer>, ghost chunks: seq<Buffer>)
      requires client.Valid() && buf != client.body && buf != client.header
      requires chunkNum == |chunks| == |ids| && Batch(chunks) <= buf[..]
      requires forall i :: 0 <= i < |chunks| ==> |chunks[i]| <= MAX_CHUNK_SIZE && |H(chunks[i])| == CHUNK_HASH_SIZE
      modifies this`uniqueChunkNum, this`uniqueDataSize, this`writtenChunkNum, this`writtenDataSize
      modifies this`totalRecvDataSize, this`totalBatchNum, db, client, client.body, client.header, buf
      ensures client.Valid()
      ensures Upload(Contents(), client.Contents())
        == UploadAll(Upload(old(Contents()), old(client.Contents())), H, chunks, ids)
      ensures forall i :: 0 <= i < buf.Length ==> buf[i] == 0
      ensures old(InStep()) ==> InStep()
      ensures totalRecvDataSize == old(totalRecvDataSize) + dataSize && totalBatchNum == old(totalBatchNum) + 1
    {
      totalRecvDataSize := totalRecvDataSize + dataSize;
      totalBatchNum := totalBatchNum + 1;
      ProcessRecords(buf, chunkNum, client, H, ids, chunks);
      Clear(buf);
    }

    method ProcessRecords(buf: array<byte>, chunkNum: nat, client: ClientVar,
                          H: Buffer -> Buffer, ids: seq<Buffer>, ghost chunks: seq<Buffer>)
      requires client.Valid() && buf != client.body && buf != client.header
      requires chunkNum == |chunks| == |ids| && Batch(chunks) <= buf[..]
      requires forall i :: 0 <= i < |chunks| ==> |chunks[i]| <= MAX_CHUNK_SIZE && |H(chunks[i])| == CHUNK_HASH_SIZE
      modifies db, this`uniqueChunkNum, this`uniqueDataSize, this`writtenChunkNum, this`writtenDataSize
      modifies client, client.body, client.header
      ensures client.Valid()
      ensures Upload(Contents(), client.Contents())
        == UploadAll(Upload(old(Contents()), old(client.Contents())), H, chunks, ids)
      ensures old(InStep()) ==> InStep()
    {
      ghost var u := Upload(Contents(), client.Contents());
      var currentOffset := 0;
      assert chunks[..0] == [];
      for i := 0 to chunkNum
        invariant client.Valid() && (old(InStep()) ==> InStep())
        invariant currentOffset == |Batch(chunks[..i])|
        invariant Upload(Contents(), client.Contents()) == UploadAll(u, H, chunks[..i], ids[..i])
      {
        var data := NextRecord(buf, currentOffset, chunks, i);
        ProcessOne(data, client, H, ids[i]);
        currentOffset := currentOffset + WORD_SIZE + |data|;
        UploadStep(u, H, chunks, ids, i);
      }
      assert chunks[..chunkNum] == chunks && ids[..chunkNum] == ids;
    }

    method NextRecord(buf: array<byte>, at: nat, ghost chunks: seq<Buffer>, ghost i: nat) returns (data: Buffer)
      requires i < |chunks| && |chunks[i]| <= MAX_CHUNK_SIZE && Batch(chunks) <= buf[..]
      requires at == |Batch(chunks[..i])|
      ensures data == chunks[i] && |Batch(chunks[..i + 1])| == at + WORD_SIZE + |data|
    {
      RecordParsed(chunks, i, buf[..]);
      var size := FromLittleEndian(buf[..][at..at + WORD_SIZE]);
      data := buf[..][at + WORD_SIZE..at + WORD_SIZE + size];
    }

    method Clear(buf: array<byte>)
      modifies buf
      ensures forall i :: 0 <= i < buf.Length ==> buf[i] == 0
    {
      for k := 0 to buf.Length
        invariant forall i :: 0 <= i < k ==> buf[i] == 0
      {
        buf[k] := 0;
      }
    }

    /** A query: the recipe in `buf` is overwritten by one status byte for each entry. */
    method ProcessRecipeBatch(buf: array<byte>, entryNum: nat, ghost hashes: seq<Buffer>) returns (dataSize: nat)
      requires entryNum == |hashes| && RecipeOk(hashes) && Recipe(hashes) <= buf[..]
      modifies buf
      ensures dataSize == entryNum <= buf.Length
      ensures buf[..] == Statuses(db.indexObj, hashes) + old(buf[..])[entryNum..]
      ensures forall k :: 0 <= k < entryNum ==> buf[k] == if hashes[k] in db.indexObj then 0 else 1
    {
      var statusList := new byte[entryNum];
      var entryBase := 0;
      RecipeSize(hashes);
      for i := 0 to entryNum
        invariant entryBase == i * CHUNK_HASH_SIZE
        invariant buf[..] == old(buf[..])
        invariant forall k :: 0 <= k < i ==> statusList[k] == Statuses(db.indexObj, hashes)[k]
      {
        RecipeSlice(hashes, i);
        SliceOfPrefix(Recipe(hashes), buf[..], entryBase, entryBase + CHUNK_HASH_SIZE);
        var hash := buf[..][entryBase..entryBase + CHUNK_HASH_SIZE];
        entryBase := entryBase + CHUNK_HASH_SIZE;
        var status, _ := db.Query(hash);
        statusList[i] := if status then 0 else 1;
      }
      assert statusList[..] == Statuses(db.indexObj, hashes);
      CopyInto(buf, 0, statusList[..]);
      dataSize := entryNum;
    }
  }
}
