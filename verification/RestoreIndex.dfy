/** The index that a restore builds from the containers it holds: where each fingerprint's
    chunk lies in its container.  It is keyed by fingerprint alone. */
module RestoreIndex {

  import opened Bytes
  import opened ContainerFormat
  import opened Packing

  datatype Located = Located(offset: nat, length: nat)

  /** All entries of one container, added to `m`; later entries replace earlier ones. */
  ghost function AddEntries(m: map<Buffer, Located>, entries: seq<Entry>, n: nat): map<Buffer, Located>
    requires n <= |entries|
  {
    if n == 0 then m
    else AddEntries(m, entries, n - 1)[entries[n - 1].hash := Located(ChunkOffset(entries, n - 1), |entries[n - 1].data|)]
  }

  ghost function RestoreIndexOf(files: seq<seq<Entry>>): map<Buffer, Located> {
    if files == [] then map[]
    else AddEntries(RestoreIndexOf(files[..|files| - 1]), files[|files| - 1], |files[|files| - 1]|)
  }

  /** No fingerprint occurs twice, in one container or in two. */
  ghost predicate NoRepeats(files: seq<seq<Entry>>) {
    forall i, j, i', j' | 0 <= i < |files| && 0 <= j < |files[i]| && 0 <= i' < |files| && 0 <= j' < |files[i']| ::
      files[i][j].hash == files[i'][j'].hash ==> i == i' && j == j'
  }

  ghost predicate Absent(entries: seq<Entry>, hash: Buffer, n: nat)
    requires n <= |entries|
  {
    forall j :: 0 <= j < n ==> entries[j].hash != hash
  }

  lemma {:induction false} AddOthers(m: map<Buffer, Located>, entries: seq<Entry>, n: nat, hash: Buffer)
    requires n <= |entries| && Absent(entries, hash, n)
    ensures hash in AddEntries(m, entries, n) <==> hash in m
    ensures hash in m ==> AddEntries(m, entries, n)[hash] == m[hash]
  {
    if n > 0 {
      AddOthers(m, entries, n - 1, hash);
    }
  }

  lemma {:induction false} AddedThere(m: map<Buffer, Located>, entries: seq<Entry>, n: nat, j: nat)
    requires j < n <= |entries|
    requires forall k :: j < k < n ==> entries[k].hash != entries[j].hash
    ensures entries[j].hash in AddEntries(m, entries, n)
    ensures AddEntries(m, entries, n)[entries[j].hash] == Located(ChunkOffset(entries, j), |entries[j].data|)
  {
    if j < n - 1 {
      AddedThere(m, entries, n - 1, j);
    }
  }

  /** Without repeats, every fingerprint is found where its own container has it. */
  lemma {:induction false} IndexFinds(files: seq<seq<Entry>>, i: nat, j: nat)
    requires NoRepeats(files) && i < |files| && j < |files[i]|
    ensures files[i][j].hash in RestoreIndexOf(files)
    ensures RestoreIndexOf(files)[files[i][j].hash] == Located(ChunkOffset(files[i], j), |files[i][j].data|)
  {
    var n := |files| - 1;
    if i == n {
      AddedThere(RestoreIndexOf(files[..n]), files[n], |files[n]|, j);
    } else {
      IndexFinds(files[..n], i, j);
      AddOthers(RestoreIndexOf(files[..n]), files[n], |files[n]|, files[i][j].hash);
    }
  }

  lemma {:induction false} AddedFrom(m: map<Buffer, Located>, entries: seq<Entry>, n: nat, hash: Buffer)
    requires n <= |entries| && hash in AddEntries(m, entries, n) && hash !in m
    ensures exists j :: 0 <= j < n && entries[j].hash == hash
  {
    if entries[n - 1].hash != hash {
      AddedFrom(m, entries, n - 1, hash);
    }
  }

  /** Only fingerprints of the containers are found. */
  lemma {:induction false} IndexOnlyHas(files: seq<seq<Entry>>, hash: Buffer) returns (i: nat, j: nat)
    requires hash in RestoreIndexOf(files)
    ensures i < |files| && j < |files[i]| && files[i][j].hash == hash
  {
    var n := |files| - 1;
    if hash in RestoreIndexOf(files[..n]) {
      i, j := IndexOnlyHas(files[..n], hash);
    } else {
      AddedFrom(RestoreIndexOf(files[..n]), files[n], |files[n]|, hash);
      i := n;
      j :| 0 <= j < |files[n]| && files[n][j].hash == hash;
    }
  }

  /** Build the index by parsing the headers of the first `idNum` containers. */
  method IndexConstruct(containers: seq<Buffer>, idNum: nat, ghost files: seq<seq<Entry>>)
    returns (restoreIndex: map<Buffer, Located>)
    requires idNum == |files| <= |containers|
    requires forall i :: 0 <= i < idNum ==> Fits(files[i]) && Serialise(files[i]) <= containers[i]
    ensures restoreIndex == RestoreIndexOf(files)
  {
    restoreIndex := map[];
    for i := 0 to idNum
      invariant restoreIndex == RestoreIndexOf(files[..i])
    {
      restoreIndex := AddContainer(containers[i], restoreIndex, files[i]);
      assert files[..i + 1][..i] == files[..i];
    }
    assert files[..idNum] == files;
  }

  method AddContainer(container: Buffer, m: map<Buffer, Located>, ghost entries: seq<Entry>)
    returns (m': map<Buffer, Located>)
    requires Fits(entries) && Serialise(entries) <= container
    ensures m' == AddEntries(m, entries, |entries|)
  {
    HeaderSize(entries);
    CountParsed(entries, container);
    var chunkNum := ParsedCount(container);
    m' := m;
    for j := 0 to chunkNum
      invariant m' == AddEntries(m, entries, j)
    {
      ParseSerialised(entries, container, j);
      var found := ParsedEntry(container, j);
      m' := m'[found.hash := Located(found.offset, found.length)];
    }
  }
}
