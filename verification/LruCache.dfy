/** The cache itself: a list of nodes in order of use and a map from keys to list nodes.
    Nodes keep their identity when they move, so the map holds their handles. */
module LruCache {

  import opened LruSpec

  datatype Lookup<V> = KeyNotFound | Value(value: V)

  function IndexOf(s: seq<nat>, n: nat): (i: nat)
    requires n in s
    ensures i < |s| && s[i] == n
  {
    if s[0] == n then 0 else 1 + IndexOf(s[1..], n)
  }

  // ----- the two structures, as values -----

  ghost predicate NodeOk<K, V>(nodes: map<nat, Pair<K, V>>, cache: map<K, nat>, n: nat) {
    n in nodes && nodes[n].key in cache && cache[nodes[n].key] == n
  }

  ghost predicate KeyOk<K, V>(nodes: map<nat, Pair<K, V>>, keys: seq<nat>, cache: map<K, nat>, k: K)
    requires k in cache
  {
    cache[k] in keys && cache[k] in nodes && nodes[cache[k]].key == k
  }

  /** Map and list hold the same keys, each once. */
  ghost predicate Agree<K(!new), V>(nodes: map<nat, Pair<K, V>>, keys: seq<nat>, cache: map<K, nat>) {
    && |cache| == |keys|
    && (forall i :: 0 <= i < |keys| ==> NodeOk(nodes, cache, keys[i]))
    && (forall k :: k in cache ==> KeyOk(nodes, keys, cache, k))
    && (forall i, j :: 0 <= i < j < |keys| ==> keys[i] != keys[j])
  }

  ghost function Pairs<K, V>(nodes: map<nat, Pair<K, V>>, keys: seq<nat>): (s: seq<Pair<K, V>>)
    requires forall i :: 0 <= i < |keys| ==> keys[i] in nodes
    ensures |s| == |keys| && forall i :: 0 <= i < |s| ==> s[i] == nodes[keys[i]]
  {
    seq(|keys|, i requires 0 <= i < |keys| => nodes[keys[i]])
  }

  lemma AgreeMeans<K(!new), V>(nodes: map<nat, Pair<K, V>>, keys: seq<nat>, cache: map<K, nat>)
    requires Agree(nodes, keys, cache)
    ensures forall i :: 0 <= i < |keys| ==> keys[i] in nodes
    ensures DistinctKeys(Pairs(nodes, keys))
  {
    forall i | 0 <= i < |keys| ensures keys[i] in nodes { assert NodeOk(nodes, cache, keys[i]); }
    var s := Pairs(nodes, keys);
    forall i, j | 0 <= i < j < |s|
      ensures s[i].key != s[j].key
    {
      assert NodeOk(nodes, cache, keys[i]) && NodeOk(nodes, cache, keys[j]);
    }
  }

  /** Looking a key up in the map finds its place in the list. */
  lemma FoundAt<K(!new), V>(nodes: map<nat, Pair<K, V>>, keys: seq<nat>, cache: map<K, nat>, k: K)
    requires Agree(nodes, keys, cache)
    ensures forall i :: 0 <= i < |keys| ==> keys[i] in nodes
    ensures k in cache <==> Has(Pairs(nodes, keys), k)
    ensures k in cache ==> cache[k] in keys && Find(Pairs(nodes, keys), k) == IndexOf(keys, cache[k])
  {
    AgreeMeans(nodes, keys, cache);
    var s := Pairs(nodes, keys);
    if k in cache {
      assert KeyOk(nodes, keys, cache, k);
      assert s[IndexOf(keys, cache[k])].key == k;
    }
    if Has(s, k) {
      assert NodeOk(nodes, cache, keys[Find(s, k)]);
    }
  }

  /** The order after a node is moved to the front. */
  function Front(keys: seq<nat>, i: nat): seq<nat>
    requires i < |keys|
  {
    [keys[i]] + keys[..i] + keys[i + 1..]
  }

  ghost predicate Unique(keys: seq<nat>) { forall i, j :: 0 <= i < j < |keys| ==> keys[i] != keys[j] }

  lemma FrontKeys(keys: seq<nat>, i: nat)
    requires i < |keys| && Unique(keys)
    ensures Unique(Front(keys, i)) && forall n :: n in Front(keys, i) <==> n in keys
  {
    var keys' := Front(keys, i);
    forall j | 0 <= j < |keys'| ensures keys'[j] == keys[if j == 0 then i else if j <= i then j - 1 else j] { }
    forall j | 0 <= j < |keys| ensures keys[j] in keys' { assert keys'[if j == i then 0 else if j < i then j + 1 else j] == keys[j]; }
  }

  lemma WithoutKeys(keys: seq<nat>, i: nat)
    requires i < |keys| && Unique(keys)
    ensures Unique(Without(keys, i)) && forall n :: n in Without(keys, i) <==> n in keys && n != keys[i]
  {
    var keys' := Without(keys, i);
    forall j | 0 <= j < |keys'| ensures keys'[j] == keys[if j < i then j else j + 1] { }
    forall j | 0 <= j < |keys| && j != i ensures keys[j] in keys' { assert keys'[if j < i then j else j - 1] == keys[j]; }
  }

  /** `keys_.splice(keys_.begin(), keys_, node)`, after the node's value may have been set. */
  lemma Spliced<K(!new), V>(nodes: map<nat, Pair<K, V>>, keys: seq<nat>, cache: map<K, nat>, i: nat, p: Pair<K, V>,
                            nodes': map<nat, Pair<K, V>>)
    requires Agree(nodes, keys, cache) && i < |keys| && keys[i] in nodes && nodes[keys[i]].key == p.key
    requires nodes' == nodes[keys[i] := p]
    ensures Agree(nodes', Front(keys, i), cache)
  {
    FrontKeys(keys, i);
    assert forall n :: n in keys ==> NodeOk(nodes, cache, n);
    assert forall n :: n in keys ==> NodeOk(nodes', cache, n);
    forall k | k in cache ensures KeyOk(nodes', Front(keys, i), cache, k) { assert KeyOk(nodes, keys, cache, k); }
  }

  lemma SplicedPairs<K(!new), V>(nodes: map<nat, Pair<K, V>>, keys: seq<nat>, i: nat, p: Pair<K, V>, nodes': map<nat, Pair<K, V>>)
    requires i < |keys| && Unique(keys) && (forall n :: n in keys ==> n in nodes)
    requires nodes' == nodes[keys[i] := p]
    ensures forall n :: n in Front(keys, i) ==> n in nodes'
    ensures Pairs(nodes', Front(keys, i)) == [p] + Without(Pairs(nodes, keys), i)
  {
    FrontKeys(keys, i);
    var s, s' := [p] + Without(Pairs(nodes, keys), i), Pairs(nodes', Front(keys, i));
    forall j | 0 <= j < |s'|
      ensures s'[j] == s[j]
    {
      var m := if j == 0 then i else if j <= i then j - 1 else j;
      assert Front(keys, i)[j] == keys[m];
    }
  }

  lemma Erased<K(!new), V>(nodes: map<nat, Pair<K, V>>, keys: seq<nat>, cache: map<K, nat>, i: nat,
                           nodes': map<nat, Pair<K, V>>, cache': map<K, nat>)
    requires Agree(nodes, keys, cache) && i < |keys| && keys[i] in nodes
    requires nodes' == nodes - {keys[i]} && cache' == cache - {nodes[keys[i]].key}
    ensures Agree(nodes', Without(keys, i), cache')
  {
    var k0 := nodes[keys[i]].key;
    WithoutKeys(keys, i);
    assert forall n :: n in keys ==> NodeOk(nodes, cache, n);
    assert NodeOk(nodes, cache, keys[i]);
    assert cache'.Keys == cache.Keys - {k0};
    forall n | n in Without(keys, i) ensures NodeOk(nodes', cache', n) { assert NodeOk(nodes, cache, n); }
    forall k | k in cache' ensures KeyOk(nodes', Without(keys, i), cache', k) { assert KeyOk(nodes, keys, cache, k); }
  }

  lemma ErasedPairs<K(!new), V>(nodes: map<nat, Pair<K, V>>, keys: seq<nat>, i: nat, nodes': map<nat, Pair<K, V>>)
    requires i < |keys| && Unique(keys) && (forall n :: n in keys ==> n in nodes)
    requires nodes' == nodes - {keys[i]}
    ensures forall n :: n in Without(keys, i) ==> n in nodes'
    ensures Pairs(nodes', Without(keys, i)) == Without(Pairs(nodes, keys), i)
  {
    WithoutKeys(keys, i);
    var s, s' := Without(Pairs(nodes, keys), i), Pairs(nodes', Without(keys, i));
    forall j | 0 <= j < |s'|
      ensures s'[j] == s[j]
    {
      assert Without(keys, i)[j] == keys[if j < i then j else j + 1];
    }
  }

  lemma PushedUnique<K(!new), V>(nodes: map<nat, Pair<K, V>>, keys: seq<nat>, cache: map<K, nat>, n: nat)
    requires Agree(nodes, keys, cache) && n !in nodes
    ensures Unique([n] + keys)
  {
    forall j | 0 <= j < |keys| ensures keys[j] != n { assert NodeOk(nodes, cache, keys[j]); }
  }

  lemma Pushed<K(!new), V>(nodes: map<nat, Pair<K, V>>, keys: seq<nat>, cache: map<K, nat>, n: nat, p: Pair<K, V>,
                           nodes': map<nat, Pair<K, V>>, keys': seq<nat>, cache': map<K, nat>)
    requires Agree(nodes, keys, cache) && n !in nodes && p.key !in cache
    requires nodes' == nodes[n := p] && keys' == [n] + keys && cache' == cache[p.key := n]
    ensures Agree(nodes', keys', cache')
  {
    assert cache'.Keys == cache.Keys + {p.key};
    forall j | 0 <= j < |keys'|
      ensures NodeOk(nodes', cache', keys'[j])
    {
      if j > 0 {
        assert NodeOk(nodes, cache, keys[j - 1]);
      }
    }
    forall k | k in cache'
      ensures KeyOk(nodes', keys', cache', k)
    {
      if k != p.key {
        assert KeyOk(nodes, keys, cache, k);
      }
    }
    PushedUnique(nodes, keys, cache, n);
  }

  lemma PushedPairs<K(!new), V>(nodes: map<nat, Pair<K, V>>, keys: seq<nat>, n: nat, p: Pair<K, V>)
    requires n !in nodes && (forall i :: 0 <= i < |keys| ==> keys[i] in nodes)
    ensures forall i :: 0 <= i < |keys| + 1 ==> ([n] + keys)[i] in nodes[n := p]
    ensures Pairs(nodes[n := p], [n] + keys) == [p] + Pairs(nodes, keys)
  {
    var keys' := [n] + keys;
    forall i | 0 <= i < |keys'| ensures keys'[i] in nodes[n := p] { assert i > 0 ==> keys'[i] == keys[i - 1]; }
  }

  class Cache<K(==,!new), V(0)> {
    var nodes: map<nat, Pair<K, V>>
    var keys: seq<nat>
    var cache: map<K, nat>
    var nextNode: nat
    const maxSize: nat
    const elasticity: nat

    ghost predicate Valid()
      reads this
    {
      Agree(nodes, keys, cache) && forall n :: n in nodes ==> n < nextNode
    }

    ghost function Contents(): (s: seq<Pair<K, V>>)
      reads this
      requires Valid()
    {
      AgreeMeans(nodes, keys, cache);
      Pairs(nodes, keys)
    }

    constructor (maxSize: nat, elasticity: nat)
      ensures Valid() && Contents() == [] && this.maxSize == maxSize && this.elasticity == elasticity
    {
      nodes, keys, cache, nextNode := map[], [], map[], 0;
      this.maxSize, this.elasticity := maxSize, elasticity;
    }

    method Size() returns (n: nat)
      requires Valid()
      ensures n == |Contents()|
    {
      n := |cache|;
    }

    method Contains(k: K) returns (b: bool)
      requires Valid()
      ensures b == Has(Contents(), k)
    {
      FoundAt(nodes, keys, cache, k);
      b := k in cache;
    }

    /** Move a node to the front, with the given value. */
    method MoveToFront(k: K, v: V)
      requires Valid() && k in cache
      modifies this`nodes, this`keys
      ensures Valid()
      ensures Has(old(Contents()), k)
      ensures Contents() == [Pair(k, v)] + Without(old(Contents()), Find(old(Contents()), k))
    {
      FoundAt(nodes, keys, cache, k);
      var i := IndexOf(keys, cache[k]);
      assert KeyOk(nodes, keys, cache, k);
      ghost var before := nodes;
      nodes := nodes[keys[i] := Pair(k, v)];
      Spliced(before, keys, cache, i, Pair(k, v), nodes);
      SplicedPairs(before, keys, i, Pair(k, v), nodes);
      keys := Front(keys, i);
    }

    method Insert(k: K, v: V)
      requires Valid()
      modifies this
      ensures Valid()
      ensures Contents() == LruSpec.Insert(old(Contents()), k, v, maxSize, elasticity)
    {
      FoundAt(nodes, keys, cache, k);
      if k in cache {
        MoveToFront(k, v);
      } else {
        PushFront(k, v);
        var count := Prune();
      }
    }

    method PushFront(k: K, v: V)
      requires Valid() && k !in cache
      modifies this
      ensures Valid() && Contents() == [Pair(k, v)] + old(Contents())
    {
      AgreeMeans(nodes, keys, cache);
      PushedPairs(nodes, keys, nextNode, Pair(k, v));
      nodes := nodes[nextNode := Pair(k, v)];
      keys := [nextNode] + keys;
      cache := cache[k := nextNode];
      Pushed(old(nodes), old(keys), old(cache), nextNode, Pair(k, v), nodes, keys, cache);
      nextNode := nextNode + 1;
    }

    /** Drop nodes from the back until only `maxSize` are left, if the hard limit is reached. */
    method Prune() returns (count: nat)
      requires Valid()
      modifies this
      ensures Valid()
      ensures Contents() == LruSpec.Prune(old(Contents()), maxSize, elasticity)
      ensures count == |old(Contents())| - |Contents()|
    {
      ghost var s := Contents();
      count := 0;
      if maxSize == 0 || |cache| < maxSize + elasticity {
        return;
      }
      while |cache| > maxSize
        invariant Valid()
        invariant count + |Contents()| == |s|
        invariant Contents() == s[..|Contents()|]
        invariant |Contents()| >= maxSize || |Contents()| == |s|
        decreases |cache|
      {
        DropLast();
        count := count + 1;
      }
    }

    method DropLast()
      requires Valid() && |Contents()| > 0
      modifies this`nodes, this`keys, this`cache
      ensures Valid() && |cache| == old(|cache|) - 1
      ensures Contents() == old(Contents())[..|old(Contents())| - 1]
    {
      var i := |keys| - 1;
      assert NodeOk(nodes, cache, keys[i]);
      EraseAt(i);
    }

    method EraseAt(i: nat)
      requires Valid() && i < |keys| && keys[i] in nodes && nodes[keys[i]].key in cache
      modifies this`nodes, this`keys, this`cache
      ensures Valid() && |cache| == old(|cache|) - 1
      ensures Contents() == Without(old(Contents()), i)
    {
      AgreeMeans(nodes, keys, cache);
      cache := cache - {nodes[keys[i]].key};
      nodes := nodes - {keys[i]};
      Erased(old(nodes), keys, old(cache), i, nodes, cache);
      ErasedPairs(old(nodes), keys, i, nodes);
      keys := Without(keys, i);
    }

    method TryGet(k: K) returns (r: Lookup<V>)
      requires Valid()
      modifies this`nodes, this`keys
      ensures Valid()
      ensures Contents() == Touch(old(Contents()), k)
      ensures r.Value? <==> Has(old(Contents()), k)
      ensures r.Value? ==> r.value == old(Contents())[Find(old(Contents()), k)].value
    {
      FoundAt(nodes, keys, cache, k);
      if k !in cache {
        return KeyNotFound;
      }
      assert KeyOk(nodes, keys, cache, k);
      r := Value(nodes[cache[k]].value);
      MoveToFront(k, r.value);
    }

    method Remove(k: K) returns (b: bool)
      requires Valid()
      modifies this`nodes, this`keys, this`cache
      ensures Valid()
      ensures Contents() == LruSpec.Remove(old(Contents()), k)
      ensures b == Has(old(Contents()), k)
    {
      FoundAt(nodes, keys, cache, k);
      if k !in cache {
        return false;
      }
      var i := IndexOf(keys, cache[k]);
      assert KeyOk(nodes, keys, cache, k);
      EraseAt(i);
      return true;
    }

    /** The value of the least recently used key, which stays where it is. */
    method PruneValue() returns (v: V)
      requires Valid() && |Contents()| > 0
      ensures v == Contents()[|Contents()| - 1].value
    {
      assert NodeOk(nodes, cache, keys[|keys| - 1]);
      var back := nodes[keys[|keys| - 1]].key;
      assert KeyOk(nodes, keys, cache, back);
      v := nodes[cache[back]].value;
    }
  }
}
