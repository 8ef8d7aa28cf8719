/** The container cache of a restore: a fixed pool of 4 MB slots, and an LRU cache from
    container names to slot numbers. */
module ReadCache {

  import opened Bytes
  import opened ContainerFormat
  import opened LruSpec
  import opened LruCache

  /** Names are distinct, and so are slot numbers, which are the first `used` of the pool. */
  ghost predicate SlotsOk(s: seq<Pair<Buffer, nat>>, used: nat) {
    && DistinctKeys(s)
    && (forall i :: 0 <= i < |s| ==> s[i].value < used)
    && (forall i, j :: 0 <= i < j < |s| ==> s[i].value != s[j].value)
  }

  ghost predicate PoolOk(pool: seq<Buffer>) {
    forall i :: 0 <= i < |pool| ==> |pool[i]| == MAX_CONTAINER_SIZE
  }

  /** A slot holds a container's file, followed by whatever was there before. */
  ghost predicate SlotHolds(slot: Buffer, disk: map<Buffer, Buffer>, name: Buffer) {
    name in disk && |slot| == MAX_CONTAINER_SIZE && disk[name] <= slot
  }

  /** The slots in use are the first `used` of a pool of `n`, one for each name. */
  ghost predicate SlotsPlaced(s: seq<Pair<Buffer, nat>>, pool: seq<Buffer>, used: nat, n: nat) {
    1 <= n == |pool| && used == |s| <= n && PoolOk(pool) && SlotsOk(s, used)
  }

  ghost predicate Mirrors(s: seq<Pair<Buffer, nat>>, pool: seq<Buffer>, disk: map<Buffer, Buffer>) {
    forall i :: 0 <= i < |s| ==> s[i].value < |pool| && SlotHolds(pool[s[i].value], disk, s[i].key)
  }

  class ReadCache {
    const lru: Cache<Buffer, nat>
    const cacheSize: nat
    var pool: seq<Buffer>
    var currentIndex: nat

    ghost predicate Valid()
      reads this, lru
    {
      && lru.Valid() && lru.maxSize == cacheSize && lru.elasticity == 0
      && SlotsPlaced(lru.Contents(), pool, currentIndex, cacheSize)
    }

    /** The cached names with their slots, most recently used first. */
    ghost function Cached(): seq<Pair<Buffer, nat>>
      reads this, lru
    {
      if lru.Valid() then lru.Contents() else []
    }

    /** Every cached container agrees with its file. */
    ghost predicate Agrees(disk: map<Buffer, Buffer>)
      reads this, lru
      requires Valid()
    {
      Mirrors(lru.Contents(), pool, disk)
    }

    /** The cache is in order, and has container `name` as it is on disk, if at all. */
    ghost predicate Serves(disk: map<Buffer, Buffer>, name: Buffer)
      reads this, lru
    {
      && Valid()
      && var s := lru.Contents(); forall i :: 0 <= i < |s| && s[i].key == name ==> SlotHolds(pool[s[i].value], disk, name)
    }

    /** So it is for every container: the form in which callers keep it. */
    ghost predicate Ready(disk: map<Buffer, Buffer>)
      reads this, lru
    {
      forall name :: Serves(disk, name)
    }

    lemma ReadyMeans(disk: map<Buffer, Buffer>)
      ensures Ready(disk) <==> Valid() && Agrees(disk)
    {
      if Ready(disk) {
        assert Serves(disk, []);
        var s := lru.Contents();
        forall i | 0 <= i < |s| ensures SlotHolds(pool[s[i].value], disk, s[i].key) { assert Serves(disk, s[i].key); }
      }
    }

    constructor (cacheSize: nat)
      requires cacheSize >= 1
      ensures Valid() && lru.Contents() == [] && fresh(lru) && this.cacheSize == cacheSize
    {
      this.cacheSize := cacheSize;
      lru := new Cache(cacheSize, 0);
      var blank := seq(MAX_CONTAINER_SIZE, _ => 0);
      pool := seq(cacheSize, _ => blank);
      currentIndex := 0;
    }

    method ExistsInCache(name: Buffer) returns (b: bool)
      requires Valid()
      ensures b == Has(lru.Contents(), name)
    {
      b := lru.Contains(name);
    }

    /** Put a container in a slot: the next free one, or the least recently used container's,
        which is overwritten while that container is still in the index.  The cache stays right
        exactly if the name was not cached, or is the one evicted. */
    method InsertToCache(name: Buffer, data: Buffer, length: nat, ghost disk: map<Buffer, Buffer>)
      requires Valid() && Agrees(disk)
      requires name in disk && length == |disk[name]| <= |data| == MAX_CONTAINER_SIZE && data[..length] == disk[name]
      modifies this`currentIndex, this`pool, lru
      ensures lru.Valid() && lru.Contents() == Inserted(old(lru.Contents()), name, cacheSize)
      ensures currentIndex == UsedAfter(old(lru.Contents()), cacheSize)
      ensures pool == Filled(old(pool), SlotFor(old(lru.Contents()), cacheSize), data[..length])
      ensures (Valid() && Agrees(disk)) <==> InsertSafe(old(lru.Contents()), name, cacheSize)
    {
      InsertRight(lru.Contents(), name, cacheSize, pool, data[..length], disk);
      Fill(name, data, length);
    }

    /** Take a slot, free or evicted, and put the container there. */
    method Fill(name: Buffer, data: Buffer, length: nat)
      requires Valid() && length <= |data| == MAX_CONTAINER_SIZE
      modifies this`currentIndex, this`pool, lru
      ensures lru.Valid() && lru.Contents() == Inserted(old(lru.Contents()), name, cacheSize)
      ensures currentIndex == UsedAfter(old(lru.Contents()), cacheSize)
      ensures pool == Filled(old(pool), SlotFor(old(lru.Contents()), cacheSize), data[..length])
    {
      var slot, full := ChooseSlot();
      Put(name, slot, data, length);
      if !full {
        currentIndex := currentIndex + 1;
      }
    }

    method ChooseSlot() returns (slot: nat, full: bool)
      requires Valid()
      ensures slot == SlotFor(lru.Contents(), cacheSize) && full == (|lru.Contents()| == cacheSize)
      ensures slot < |pool| && |pool[slot]| == MAX_CONTAINER_SIZE
      ensures currentIndex == |lru.Contents()|
    {
      var size := lru.Size();
      full, slot := size + 1 > cacheSize, currentIndex;
      if full {
        slot := lru.PruneValue();
      }
    }

    /** Overwrite the start of a slot, then index it. */
    method Put(name: Buffer, slot: nat, data: Buffer, length: nat)
      requires lru.Valid() && slot < |pool| && length <= |data| && length <= |pool[slot]|
      modifies this`pool, lru
      ensures lru.Valid()
      ensures lru.Contents() == Insert(old(lru.Contents()), name, slot, lru.maxSize, lru.elasticity)
      ensures pool == Filled(old(pool), slot, data[..length])
    {
      pool := pool[slot := Splice(pool[slot], 0, data[..length])];
      lru.Insert(name, slot);
    }

    /** Read a cached container; what is returned starts with its file. */
    method ReadFromCache(name: Buffer, ghost disk: map<Buffer, Buffer>) returns (r: Lookup<Buffer>)
      requires Valid() && Agrees(disk)
      modifies lru
      ensures Valid() && Agrees(disk)
      ensures lru.Contents() == Touch(old(lru.Contents()), name)
      ensures r.Value? <==> Has(old(lru.Contents()), name)
      ensures r.Value? ==> SlotHolds(r.value, disk, name)
    {
      ghost var s := lru.Contents();
      var slot := lru.TryGet(name);
      if slot.KeyNotFound? {
        return KeyNotFound;
      }
      r := Value(pool[slot.value]);
      TouchKeeps(s, name, currentIndex, pool, disk);
    }
  }

  /** Where the pair at position `j` was before the pair at `i` was moved to the front. */
  function From(i: nat, j: nat): nat { if j == 0 then i else if j <= i then j - 1 else j }

  lemma TouchedAt(s: seq<Pair<Buffer, nat>>, k: Buffer, j: nat)
    requires Has(s, k) && j < |s|
    ensures |Touch(s, k)| == |s| && From(Find(s, k), j) < |s| && Touch(s, k)[j] == s[From(Find(s, k), j)]
  {
  }

  /** Touching only reorders. */
  lemma TouchKeeps(s: seq<Pair<Buffer, nat>>, k: Buffer, used: nat, pool: seq<Buffer>, disk: map<Buffer, Buffer>)
    requires SlotsOk(s, used) && Mirrors(s, pool, disk)
    ensures |Touch(s, k)| == |s| && SlotsOk(Touch(s, k), used) && Mirrors(Touch(s, k), pool, disk)
  {
    if Has(s, k) {
      forall j | 0 <= j < |s| ensures |Touch(s, k)| == |s| && Touch(s, k)[j] == s[From(Find(s, k), j)] { TouchedAt(s, k, j); }
      Permuted(s, Touch(s, k), Find(s, k), used);
      PermutedMirrors(s, Touch(s, k), Find(s, k), pool, disk);
    }
  }

  lemma PermutedMirrors(s: seq<Pair<Buffer, nat>>, s': seq<Pair<Buffer, nat>>, i: nat, pool: seq<Buffer>, disk: map<Buffer, Buffer>)
    requires Mirrors(s, pool, disk) && |s'| == |s| && i < |s|
    requires forall j :: 0 <= j < |s| ==> s'[j] == s[From(i, j)]
    ensures Mirrors(s', pool, disk)
  {
  }

  lemma Permuted(s: seq<Pair<Buffer, nat>>, s': seq<Pair<Buffer, nat>>, i: nat, used: nat)
    requires SlotsOk(s, used) && |s'| == |s| && i < |s|
    requires forall j :: 0 <= j < |s| ==> s'[j] == s[From(i, j)]
    ensures SlotsOk(s', used)
  {
    forall j, m | 0 <= j < m < |s'|
      ensures s'[j].key != s'[m].key && s'[j].value != s'[m].value
    {
      assert From(i, j) < From(i, m) || From(i, m) < From(i, j);
    }
  }

  /** A container is put in a slot that none of the remaining ones uses. */
  lemma SlotFilled(s: seq<Pair<Buffer, nat>>, t: seq<Pair<Buffer, nat>>, name: Buffer, slot: nat, used: nat, used': nat,
                   pool: seq<Buffer>, data: Buffer, disk: map<Buffer, Buffer>)
    requires t <= s && SlotsOk(s, used) && Mirrors(s, pool, disk) && PoolOk(pool)
    requires slot < |pool| && name in disk && disk[name] == data && |data| <= MAX_CONTAINER_SIZE
    requires (forall i :: 0 <= i < |t| ==> t[i].value != slot && t[i].key != name) && used <= used' && slot < used'
    ensures var s', pool' := [Pair(name, slot)] + t, Filled(pool, slot, data);
      SlotsOk(s', used') && Mirrors(s', pool', disk) && PoolOk(pool')
  {
    forall i | 0 <= i < |t| ensures t[i] == s[i] { }
    PairAdded(t, Pair(name, slot), used');
    MirrorsAdded(t, name, slot, pool, data, disk);
  }

  lemma MirrorsAdded(t: seq<Pair<Buffer, nat>>, name: Buffer, slot: nat, pool: seq<Buffer>, data: Buffer, disk: map<Buffer, Buffer>)
    requires Mirrors(t, pool, disk) && PoolOk(pool) && slot < |pool|
    requires name in disk && disk[name] == data && |data| <= MAX_CONTAINER_SIZE
    requires forall i :: 0 <= i < |t| ==> t[i].value != slot
    ensures Mirrors([Pair(name, slot)] + t, Filled(pool, slot, data), disk) && PoolOk(Filled(pool, slot, data))
  {
    var s' := [Pair(name, slot)] + t;
    forall i | 0 <= i < |t| ensures s'[i + 1] == t[i] { }
  }

  ghost function Filled(pool: seq<Buffer>, slot: nat, data: Buffer): seq<Buffer> {
    if slot < |pool| && |data| <= |pool[slot]| then pool[slot := Splice(pool[slot], 0, data)] else pool
  }

  /** The slot for the next container: the next free one, or that of the least recently used. */
  ghost function SlotFor(s: seq<Pair<Buffer, nat>>, n: nat): nat {
    if |s| < n || |s| == 0 then |s| else s[|s| - 1].value
  }

  /** The contents after an insertion, whether or not the name is cached, and how many slots
      then count as used. */
  ghost function Inserted(s: seq<Pair<Buffer, nat>>, name: Buffer, n: nat): seq<Pair<Buffer, nat>> {
    Insert(s, name, SlotFor(s, n), n, 0)
  }

  ghost function UsedAfter(s: seq<Pair<Buffer, nat>>, n: nat): nat { if |s| < n then |s| + 1 else n }

  /** The contents after a container was asked for: it is the most recent one, if there is a file. */
  ghost function UsedOne(s: seq<Pair<Buffer, nat>>, name: Buffer, n: nat, disk: map<Buffer, Buffer>): seq<Pair<Buffer, nat>> {
    if Has(s, name) then Touch(s, name) else if name in disk then Inserted(s, name, n) else s
  }

  ghost function UsedAll(s: seq<Pair<Buffer, nat>>, names: seq<Buffer>, n: nat, disk: map<Buffer, Buffer>): seq<Pair<Buffer, nat>> {
    if names == [] then s else UsedOne(UsedAll(s, names[..|names| - 1], n, disk), names[|names| - 1], n, disk)
  }

  lemma UsedStep(s: seq<Pair<Buffer, nat>>, names: seq<Buffer>, i: nat, n: nat, disk: map<Buffer, Buffer>, cached: seq<Pair<Buffer, nat>>)
    requires i < |names| && cached == UsedAll(s, names[..i], n, disk)
    ensures UsedAll(s, names[..i + 1], n, disk) == UsedOne(cached, names[i], n, disk)
  {
    assert names[..i + 1][..i] == names[..i];
  }

  /** Where the other containers are after one was moved to the front. */
  lemma UsedOneShifts(s: seq<Pair<Buffer, nat>>, name: Buffer, n: nat, disk: map<Buffer, Buffer>, m: nat)
    requires m < n && m <= |s| && (Has(s, name) || name in disk)
    requires forall j :: 0 <= j < m ==> s[j].key != name
    ensures var s' := UsedOne(s, name, n, disk);
      |s'| >= m + 1 && s'[0].key == name && forall j :: 0 <= j < m ==> s'[j + 1].key == s[j].key
  {
    if Has(s, name) {
      assert Find(s, name) >= m;
      assert forall j :: 0 <= j < m ==> Without(s, Find(s, name))[j] == s[j];
    }
  }

  /** Place `j` of the cache has the `j`-th of the names, counted from the last. */
  ghost predicate InFront(s: seq<Pair<Buffer, nat>>, names: seq<Buffer>, j: nat) {
    j < |names| && j < |s| && s[j].key == names[|names| - 1 - j]
  }

  ghost predicate AllInFront(s: seq<Pair<Buffer, nat>>, names: seq<Buffer>) {
    forall j :: 0 <= j < |names| ==> InFront(s, names, j)
  }

  /** After the containers of a group were asked for, no more of them than there are slots, the
      cache has them all, the last one first. */
  lemma {:induction false} GroupIsCached(s: seq<Pair<Buffer, nat>>, names: seq<Buffer>, n: nat, disk: map<Buffer, Buffer>)
    requires |names| <= n && (forall i, j :: 0 <= i < j < |names| ==> names[i] != names[j])
    requires forall i :: 0 <= i < |names| ==> names[i] in disk
    ensures AllInFront(UsedAll(s, names, n, disk), names)
  {
    if names != [] {
      var m := |names| - 1;
      GroupIsCached(s, names[..m], n, disk);
      OneMoreInFront(UsedAll(s, names[..m], n, disk), names, n, disk);
    }
  }

  lemma OneMoreInFront(before: seq<Pair<Buffer, nat>>, names: seq<Buffer>, n: nat, disk: map<Buffer, Buffer>)
    requires 0 < |names| <= n && AllInFront(before, names[..|names| - 1]) && names[|names| - 1] in disk
    requires forall i, j :: 0 <= i < j < |names| ==> names[i] != names[j]
    ensures AllInFront(UsedOne(before, names[|names| - 1], n, disk), names)
  {
    var m := |names| - 1;
    var after := UsedOne(before, names[m], n, disk);
    assert m > 0 ==> InFront(before, names[..m], m - 1);
    forall j | 0 <= j < m ensures before[j].key == names[m - 1 - j] { assert InFront(before, names[..m], j); }
    UsedOneShifts(before, names[m], n, disk, m);
    forall j | 0 <= j < |names| ensures InFront(after, names, j) {
      assert j > 0 ==> after[(j - 1) + 1].key == before[j - 1].key;
    }
  }

  /** The name is not cached, or is the one to be evicted from a full cache. */
  ghost predicate InsertSafe(s: seq<Pair<Buffer, nat>>, name: Buffer, n: nat) {
    !Has(s, name) || (|s| == n && |s| > 0 && s[|s| - 1].key == name)
  }

  /** A safe insertion puts the name in front and drops the last one if all slots were in use. */
  lemma InsertedShape(s: seq<Pair<Buffer, nat>>, name: Buffer, n: nat)
    requires |s| <= n && n >= 1 && DistinctKeys(s) && InsertSafe(s, name, n)
    ensures var t := if |s| < n then s else s[..n - 1];
      Inserted(s, name, n) == [Pair(name, SlotFor(s, n))] + t && forall i :: 0 <= i < |t| ==> t[i].key != name
  {
    if Has(s, name) {
      assert Find(s, name) == n - 1;
      assert Without(s, n - 1) == s[..n - 1];
    }
  }

  lemma InsertOk(s: seq<Pair<Buffer, nat>>, name: Buffer, n: nat, pool: seq<Buffer>, data: Buffer, disk: map<Buffer, Buffer>)
    requires |s| <= n == |pool| && n >= 1 && InsertSafe(s, name, n)
    requires SlotsOk(s, |s|) && Mirrors(s, pool, disk) && PoolOk(pool)
    requires name in disk && disk[name] == data && |data| <= MAX_CONTAINER_SIZE
    ensures var s', pool' := Inserted(s, name, n), Filled(pool, SlotFor(s, n), data);
      && |s'| == UsedAfter(s, n) && SlotsOk(s', UsedAfter(s, n)) && Mirrors(s', pool', disk) && PoolOk(pool')
  {
    InsertedShape(s, name, n);
    var t := if |s| < n then s else s[..n - 1];
    SlotFilled(s, t, name, SlotFor(s, n), |s|, UsedAfter(s, n), pool, data, disk);
  }

  /** The slots stay right exactly if the insertion is safe.  Otherwise a slot is lost, or two
      names share one. */
  lemma InsertSafeExactlyWhen(s: seq<Pair<Buffer, nat>>, name: Buffer, n: nat)
    requires |s| <= n && n >= 1 && SlotsOk(s, |s|)
    ensures (SlotsOk(Inserted(s, name, n), UsedAfter(s, n)) && |Inserted(s, name, n)| == UsedAfter(s, n))
      <==> InsertSafe(s, name, n)
  {
    var s', slot := Inserted(s, name, n), SlotFor(s, n);
    if InsertSafe(s, name, n) {
      InsertedShape(s, name, n);
      var t := if |s| < n then s else s[..n - 1];
      PairAdded(t, Pair(name, slot), UsedAfter(s, n));
    } else if |s| == n {
      assert s'[0].value == s[n - 1].value && s'[n - 1] == s[n - 1];
    }
  }

  /** After an insertion everything is in its place exactly if it was safe. */
  lemma InsertRight(s: seq<Pair<Buffer, nat>>, name: Buffer, n: nat, pool: seq<Buffer>, data: Buffer, disk: map<Buffer, Buffer>)
    requires SlotsPlaced(s, pool, |s|, n) && Mirrors(s, pool, disk)
    requires name in disk && disk[name] == data && |data| <= MAX_CONTAINER_SIZE
    ensures var s', pool' := Inserted(s, name, n), Filled(pool, SlotFor(s, n), data);
      SlotsPlaced(s', pool', UsedAfter(s, n), n) && Mirrors(s', pool', disk) <==> InsertSafe(s, name, n)
  {
    InsertSafeExactlyWhen(s, name, n);
    if InsertSafe(s, name, n) {
      InsertOk(s, name, n, pool, data, disk);
    }
  }

  lemma PairAdded(t: seq<Pair<Buffer, nat>>, p: Pair<Buffer, nat>, used: nat)
    requires SlotsOk(t, used) && p.value < used
    requires forall i :: 0 <= i < |t| ==> t[i].key != p.key && t[i].value != p.value
    ensures SlotsOk([p] + t, used)
  {
  }
}
