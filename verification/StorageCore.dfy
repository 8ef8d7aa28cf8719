/** Container packing as the server does it: bytes are copied into the body and header arrays
    of the client's open container, which is serialised into a queue element when full. */
module StorageCore {

  import opened Bytes
  import opened ContainerFormat
  import opened Packing

  /** A queue element: only the first `size` bytes of the body mean anything. */
  datatype Container = Container(id: Buffer, body: Buffer, size: nat)

  ghost predicate Carries(c: Container, o: Open) {
    && c.id == o.id && c.size == |Serialise(o.entries)| <= |c.body|
    && c.body[..c.size] == Serialise(o.entries)
  }

  /** Three copies, one after the other, make one header entry. */
  method PutEntry(header: array<byte>, at: nat, chunkHash: Buffer, offset: nat, length: nat)
    requires |chunkHash| == CHUNK_HASH_SIZE && at + ENTRY_SIZE <= header.Length
    modifies header
    ensures header[..] == Splice(old(header[..]), at, HeaderEntry(chunkHash, offset, length))
  {
    ghost var was := header[..];
    var writeHeaderOffset := at;
    CopyInto(header, writeHeaderOffset, chunkHash);
    writeHeaderOffset := writeHeaderOffset + CHUNK_HASH_SIZE;
    CopyInto(header, writeHeaderOffset, BigEndian(offset));
    SpliceTwice(was, at, chunkHash, BigEndian(offset));
    writeHeaderOffset := writeHeaderOffset + WORD_SIZE;
    CopyInto(header, writeHeaderOffset, BigEndian(length));
    SpliceTwice(was, at, chunkHash + BigEndian(offset), BigEndian(length));
  }

  class ClientVar {
    var id: Buffer
    var chunkNum: nat
    const body: array<byte>
    var bodySize: nat
    const header: array<byte>
    var headerSize: nat
    var pushed: seq<Container>
    ghost var entries: seq<Entry>
    ghost var queue: seq<Open>

    ghost predicate Valid()
      reads this, body, header
    {
      && body != header && body.Length == MAX_CONTAINER_SIZE && header.Length == MAX_CONTAINER_SIZE
      && Fits(entries) && chunkNum == |entries|
      && bodySize == |Body(entries)| && headerSize == |Header(entries)|
      && bodySize + headerSize + WORD_SIZE < MAX_CONTAINER_SIZE
      && body[..bodySize] == Body(entries)
      && header[..headerSize] == Header(entries)
      && |pushed| == |queue|
      && forall i :: 0 <= i < |queue| ==> Carries(pushed[i], queue[i])
    }

    ghost function Contents(): Client
      reads this
    {
      Client(Open(id, entries), queue)
    }

    /** The chunk count starts at zero; `InitUploadBuffer` itself only sets the two sizes. */
    constructor (newId: Buffer)
      ensures Valid() && Contents() == Client(Open(newId, []), [])
      ensures fresh(body) && fresh(header)
    {
      id, chunkNum, bodySize, headerSize, pushed := newId, 0, 0, 0, [];
      body := new byte[MAX_CONTAINER_SIZE](_ => 0);
      header := new byte[MAX_CONTAINER_SIZE](_ => 0);
      entries, queue := [], [];
    }

    /** Serialise the open container and push it: what is pushed parses back to its chunks. */
    method OcallWriteContainer()
      requires Valid()
      modifies this`pushed, this`queue
      ensures Valid()
      ensures Contents() == old(Contents()).(queue := old(queue) + [Open(id, entries)])
    {
      var buf := new byte[MAX_CONTAINER_SIZE](_ => 0);
      var writeOffset := 0;
      CopyInto(buf, writeOffset, BigEndian(chunkNum));
      SplicedPrefix(seq(MAX_CONTAINER_SIZE, _ => 0), 0, BigEndian(chunkNum));
      assert buf[..WORD_SIZE] == BigEndian(chunkNum);
      writeOffset := writeOffset + WORD_SIZE;
      ghost var before := buf[..];
      CopyInto(buf, writeOffset, header[..headerSize]);
      SplicedPrefix(before, writeOffset, header[..headerSize]);
      writeOffset := writeOffset + headerSize;
      before := buf[..];
      assert before[..writeOffset] == BigEndian(chunkNum) + Header(entries);
      CopyInto(buf, writeOffset, body[..bodySize]);
      SplicedPrefix(before, writeOffset, body[..bodySize]);
      writeOffset := writeOffset + bodySize;
      assert buf[..][..writeOffset] == Serialise(entries);
      var c := Container(id, buf[..], writeOffset);
      assert Carries(c, Open(id, entries));
      pushed := pushed + [c];
      queue := queue + [Open(id, entries)];
    }

    /** Append one chunk, after a rollover if it does not fit; the name of its container. */
    method WriteContainer(data: Buffer, chunkHash: Buffer, newId: Buffer) returns (containerName: Buffer)
      requires Valid() && EntryOk(Entry(chunkHash, data))
      modifies this, body, header
      ensures Valid()
      ensures Contents() == Write(old(Contents()), Entry(chunkHash, data), newId)
      ensures containerName == id
      ensures var full := |Serialise(old(entries) + [Entry(chunkHash, data)])| >= MAX_CONTAINER_SIZE;
        |pushed| == |old(pushed)| + (if full then 1 else 0) && id == if full then newId else old(id)
    {
      ghost var e := Entry(chunkHash, data);
      WriteFits(Contents(), e, newId);
      RollsOverExactlyWhen(Contents(), e, newId);
      if |data| + ENTRY_SIZE + bodySize + headerSize + WORD_SIZE >= MAX_CONTAINER_SIZE {
        OcallWriteContainer();
        id, bodySize, headerSize, chunkNum := newId, 0, 0, 0;
        entries := [];
      }
      AppendEntry(entries, e);
      Append(data, chunkHash);
      containerName := id;
    }

    method Append(data: Buffer, chunkHash: Buffer)
      requires Valid() && EntryOk(Entry(chunkHash, data)) && !Overflows(entries, Entry(chunkHash, data))
      modifies this`chunkNum, this`bodySize, this`headerSize, this`entries, body, header
      ensures Valid()
      ensures entries == old(entries) + [Entry(chunkHash, data)]
    {
      ghost var e := Entry(chunkHash, data);
      AppendEntry(entries, e);
      ghost var entry := HeaderEntry(chunkHash, bodySize, |data|);
      ghost var oldBody, oldHeader := body[..], header[..];
      CopyInto(body, bodySize, data);
      SplicedPrefix(oldBody, bodySize, data);
      PutEntry(header, headerSize, chunkHash, bodySize, |data|);
      SplicedPrefix(oldHeader, headerSize, entry);
      headerSize := headerSize + ENTRY_SIZE;
      bodySize := bodySize + |data|;
      chunkNum := chunkNum + 1;
      entries := entries + [e];
      assert body[..bodySize] == Body(entries);
      assert header[..headerSize] == Header(entries);
    }

    /** The end of an upload: push the last container unless nothing is in it. */
    method PushLast()
      requires Valid()
      modifies this`pushed, this`queue
      ensures Valid()
      ensures Contents() == Flush(old(Contents()))
    {
      HeaderSize(entries);
      if headerSize != 0 {
        OcallWriteContainer();
      }
    }
  }
}
