/** The statistics file `previous-stat`: when the index is destroyed it writes five 64-bit
    counters, and the next index that is constructed reads them back. */
module StatFile {

  import opened Bytes
  import opened IndexFile

  const LONG_SIZE: nat := 8
  const LONG_LIMIT: nat := 0x1_0000_0000_0000_0000

  function Long(n: nat): (b: Buffer)
    ensures |b| == LONG_SIZE
  {
    LittleEndian(n % WORD_LIMIT) + LittleEndian(n / WORD_LIMIT)
  }

  function FromLong(b: Buffer): nat
    requires |b| == LONG_SIZE
  {
    FromLittleEndian(b[..WORD_SIZE]) + FromLittleEndian(b[WORD_SIZE..]) * WORD_LIMIT
  }

  lemma LongRoundTrip(n: nat)
    requires n < LONG_LIMIT
    ensures FromLong(Long(n)) == n
  {
    var b := Long(n);
    assert b[..WORD_SIZE] == LittleEndian(n % WORD_LIMIT) && b[WORD_SIZE..] == LittleEndian(n / WORD_LIMIT);
    LittleEndianRoundTrip(n % WORD_LIMIT);
    LittleEndianRoundTrip(n / WORD_LIMIT);
  }

  datatype Stats = Stats(logicalDataSize: nat, logicalChunkNum: nat, uniqueDataSize: nat, uniqueChunkNum: nat,
                         compressedDataSize: nat)

  const NoStats: Stats := Stats(0, 0, 0, 0, 0)

  predicate Fits64(st: Stats) {
    && st.logicalDataSize < LONG_LIMIT && st.logicalChunkNum < LONG_LIMIT && st.uniqueDataSize < LONG_LIMIT
    && st.uniqueChunkNum < LONG_LIMIT && st.compressedDataSize < LONG_LIMIT
  }

  function Written(st: Stats): Buffer {
    Long(st.logicalDataSize) + (Long(st.logicalChunkNum) + (Long(st.uniqueDataSize)
      + (Long(st.uniqueChunkNum) + (Long(st.compressedDataSize) + []))))
  }

  /** Where each counter is in the file: five words of eight bytes, the low byte first. */
  lemma StatLayout(st: Stats)
    ensures |Written(st)| == 40
    ensures Written(st)[..8] == Long(st.logicalDataSize) && Written(st)[8..16] == Long(st.logicalChunkNum)
    ensures Written(st)[16..24] == Long(st.uniqueDataSize) && Written(st)[24..32] == Long(st.uniqueChunkNum)
    ensures Written(st)[32..] == Long(st.compressedDataSize)
  {
    var e := Long(st.compressedDataSize) + [];
    var d := Long(st.uniqueChunkNum) + e;
    var c := Long(st.uniqueDataSize) + d;
    var b := Long(st.logicalChunkNum) + c;
    assert Written(st) == Long(st.logicalDataSize) + b;
    assert Written(st)[8..] == b && b[8..] == c && c[8..] == d && d[8..] == e;
    assert Written(st)[16..] == c && Written(st)[24..] == d && Written(st)[32..] == e;
  }

  datatype File = Missing | Present(bytes: Buffer)

  /** The five reads; a counter that cannot be read keeps what it has, which is zero. */
  function Loaded(file: File): Stats {
    if file.Missing? then NoStats
    else
      var a := Read(Stream(file.bytes, 0, false, false), Long(0));
      var b := Read(a.s, Long(0));
      var c := Read(b.s, Long(0));
      var d := Read(c.s, Long(0));
      var e := Read(d.s, Long(0));
      Stats(FromLong(a.data), FromLong(b.data), FromLong(c.data), FromLong(d.data), FromLong(e.data))
  }

  lemma ReadLong(s: Stream, n: nat, rest: Buffer)
    requires Ahead(s, Long(n) + rest) && n < LONG_LIMIT && StreamOk(s)
    ensures FromLong(Read(s, Long(0)).data) == n && Ahead(Read(s, Long(0)).s, rest)
  {
    ReadExact(s, Long(0), Long(n), rest);
    LongRoundTrip(n);
  }

  /** Counters of 64 bits come back from the file as they were. */
  lemma StatsRoundTrip(st: Stats)
    requires Fits64(st)
    ensures Loaded(Present(Written(st))) == st
  {
    var tail4 := Long(st.compressedDataSize) + [];
    var tail3 := Long(st.uniqueChunkNum) + tail4;
    var tail2 := Long(st.uniqueDataSize) + tail3;
    var tail1 := Long(st.logicalChunkNum) + tail2;
    var s := Stream(Written(st), 0, false, false);
    var a := Read(s, Long(0));
    var b := Read(a.s, Long(0));
    var c := Read(b.s, Long(0));
    var d := Read(c.s, Long(0));
    ReadLong(s, st.logicalDataSize, tail1);
    ReadLong(a.s, st.logicalChunkNum, tail2);
    ReadLong(b.s, st.uniqueDataSize, tail3);
    ReadLong(c.s, st.uniqueChunkNum, tail4);
    ReadLong(d.s, st.compressedDataSize, []);
  }
}
