/** A least-recently-used cache as a plain list of pairs, most recent first, and what any
    sequence of operations on it guarantees. */
module LruSpec {

  datatype Pair<K, V> = Pair(key: K, value: V)

  /** The position of a key, or the length of the list. */
  function Find<K(==), V>(s: seq<Pair<K, V>>, k: K): (i: nat)
    ensures i <= |s|
    ensures i < |s| ==> s[i].key == k
    ensures forall j :: 0 <= j < i ==> s[j].key != k
  {
    if s == [] then 0 else if s[0].key == k then 0 else 1 + Find(s[1..], k)
  }

  predicate Has<K(==), V>(s: seq<Pair<K, V>>, k: K) { Find(s, k) < |s| }

  function Without<X>(s: seq<X>, i: nat): seq<X>
    requires i < |s|
  {
    s[..i] + s[i + 1..]
  }

  /** Once the hard limit `max + elasticity` is reached, only the `max` most recent stay;
      `max == 0` means no limit. */
  function Prune<K, V>(s: seq<Pair<K, V>>, max: nat, elasticity: nat): seq<Pair<K, V>> {
    if max == 0 || |s| < max + elasticity || |s| <= max then s else s[..max]
  }

  function Insert<K(==), V>(s: seq<Pair<K, V>>, k: K, v: V, max: nat, elasticity: nat): seq<Pair<K, V>> {
    if Has(s, k) then [Pair(k, v)] + Without(s, Find(s, k)) else Prune([Pair(k, v)] + s, max, elasticity)
  }

  function Touch<K(==), V>(s: seq<Pair<K, V>>, k: K): seq<Pair<K, V>> {
    if Has(s, k) then [s[Find(s, k)]] + Without(s, Find(s, k)) else s
  }

  function Remove<K(==), V>(s: seq<Pair<K, V>>, k: K): seq<Pair<K, V>> {
    if Has(s, k) then Without(s, Find(s, k)) else s
  }

  ghost predicate DistinctKeys<K, V>(s: seq<Pair<K, V>>) {
    forall i, j :: 0 <= i < j < |s| ==> s[i].key != s[j].key
  }

  // ----- runs -----

  datatype Op<K, V> = DoInsert(k: K, v: V) | DoGet(k: K) | DoRemove(k: K)

  function Apply<K(==), V>(s: seq<Pair<K, V>>, op: Op<K, V>, max: nat, elasticity: nat): seq<Pair<K, V>> {
    match op
    case DoInsert(k, v) => Insert(s, k, v, max, elasticity)
    case DoGet(k) => Touch(s, k)
    case DoRemove(k) => Remove(s, k)
  }

  function Run<K(==), V>(ops: seq<Op<K, V>>, max: nat, elasticity: nat): seq<Pair<K, V>> {
    if ops == [] then [] else Apply(Run(ops[..|ops| - 1], max, elasticity), ops[|ops| - 1], max, elasticity)
  }

  // ----- what the history says, without looking at the list -----

  datatype Seen<V> = Never | Last(value: V)

  /** The value last inserted for a key and not removed since. */
  ghost function LastInserted<K, V>(ops: seq<Op<K, V>>, k: K): Seen<V> {
    if ops == [] then Never
    else
      var op := ops[|ops| - 1];
      if op.k != k || op.DoGet? then LastInserted(ops[..|ops| - 1], k)
      else if op.DoInsert? then Last(op.v)
      else Never
  }

  /** When a key was last inserted or found, counting operations from 1; 0 for never. */
  ghost function LastUse<K, V>(ops: seq<Op<K, V>>, k: K, max: nat, elasticity: nat): (n: nat)
    ensures n <= |ops|
  {
    if ops == [] then 0
    else
      var init, op := ops[..|ops| - 1], ops[|ops| - 1];
      if op.k == k && (op.DoInsert? || (op.DoGet? && Has(Run(init, max, elasticity), k))) then |ops|
      else LastUse(init, k, max, elasticity)
  }

  ghost predicate Listed<K, V>(s: seq<Pair<K, V>>, k: K) { exists i :: 0 <= i < |s| && s[i].key == k }

  /** Most recently used first, each with the value last inserted. */
  ghost predicate Ordered<K, V>(s: seq<Pair<K, V>>, last: K -> Seen<V>, used: K -> nat) {
    && (forall i :: 0 <= i < |s| ==> last(s[i].key) == Last(s[i].value))
    && (forall i, j :: 0 <= i < j < |s| ==> used(s[i].key) > used(s[j].key))
  }

  /** A key that is missing though inserted and never removed was used before every key that
      is there. */
  ghost predicate OnlyOldMissing<K(!new), V>(s: seq<Pair<K, V>>, last: K -> Seen<V>, used: K -> nat) {
    forall k :: last(k) != Never && !Listed(s, k) ==> OlderThanAll(s, used, k)
  }

  ghost predicate OlderThanAll<K, V>(s: seq<Pair<K, V>>, used: K -> nat, k: K) {
    forall i :: 0 <= i < |s| ==> used(k) < used(s[i].key)
  }

  /** A list against what is known of each key: its last value and its last use. */
  ghost predicate IsLru<K(!new), V>(s: seq<Pair<K, V>>, last: K -> Seen<V>, used: K -> nat) {
    Ordered(s, last, used) && OnlyOldMissing(s, last, used)
  }

  lemma OrderedKeysDistinct<K, V>(s: seq<Pair<K, V>>, last: K -> Seen<V>, used: K -> nat)
    requires Ordered(s, last, used)
    ensures DistinctKeys(s)
  {
  }

  /** `p.key` is used now, with value `p.value`; nothing changes for other keys. */
  ghost predicate UsedNow<K(!new), V>(p: Pair<K, V>, last: K -> Seen<V>, used: K -> nat, last': K -> Seen<V>, used': K -> nat) {
    && last'(p.key) == Last(p.value)
    && (forall k :: k != p.key ==> last'(k) == last(k))
    && (forall k :: k != p.key ==> used'(k) == used(k))
    && (forall k :: used(k) < used'(p.key))
  }

  lemma Added<K(!new), V>(s: seq<Pair<K, V>>, p: Pair<K, V>,
                          last: K -> Seen<V>, used: K -> nat, last': K -> Seen<V>, used': K -> nat)
    requires IsLru(s, last, used) && !Listed(s, p.key)
    requires UsedNow(p, last, used, last', used')
    ensures IsLru([p] + s, last', used')
  {
    var s' := [p] + s;
    assert forall j :: 0 <= j < |s| ==> s[j].key != p.key;
    forall k | last'(k) != Never && !Listed(s', k)
      ensures OlderThanAll(s', used', k)
    {
      assert s'[0] == p;
      forall i | 0 <= i < |s| ensures s[i].key != k { assert s'[i + 1] == s[i]; }
      assert OlderThanAll(s, used, k);
    }
  }

  lemma NotInPrefix<K, V>(s: seq<Pair<K, V>>, m: nat, k: K, i: nat)
    requires m <= |s| && i < |s| && s[i].key == k && !Listed(s[..m], k)
    ensures m <= i
  {
    var t := s[..m];
    assert forall j :: 0 <= j < |t| ==> t[j] == s[j];
  }

  lemma Cut<K(!new), V>(s: seq<Pair<K, V>>, m: nat, last: K -> Seen<V>, used: K -> nat)
    requires IsLru(s, last, used) && m <= |s|
    ensures IsLru(s[..m], last, used)
  {
    forall k | last(k) != Never && !Listed(s[..m], k)
      ensures OlderThanAll(s[..m], used, k)
    {
      if Listed(s, k) {
        var i :| 0 <= i < |s| && s[i].key == k;
        NotInPrefix(s, m, k, i);
      } else {
        assert OlderThanAll(s, used, k);
      }
    }
  }

  lemma Removed<K(!new), V>(s: seq<Pair<K, V>>, i: nat, last: K -> Seen<V>, used: K -> nat, last': K -> Seen<V>)
    requires IsLru(s, last, used) && i < |s|
    requires last'(s[i].key) == Never && forall k :: k != s[i].key ==> last'(k) == last(k)
    ensures IsLru(Without(s, i), last', used) && !Listed(Without(s, i), s[i].key)
  {
    var s' := Without(s, i);
    OrderedKeysDistinct(s, last, used);
    forall j | 0 <= j < |s'| ensures s'[j] == s[if j < i then j else j + 1] && s'[j].key != s[i].key { }
    forall k | last'(k) != Never && !Listed(s', k)
      ensures OlderThanAll(s', used, k)
    {
      forall m | 0 <= m < |s| && m != i ensures s[m].key != k { assert s'[if m < i then m else m - 1] == s[m]; }
      assert !Listed(s, k);
      assert OlderThanAll(s, used, k);
    }
  }

  /** Taking a pair out and putting it in front. */
  lemma ToFront<K(!new), V>(s: seq<Pair<K, V>>, i: nat, p: Pair<K, V>,
                            last: K -> Seen<V>, used: K -> nat, last': K -> Seen<V>, used': K -> nat)
    requires IsLru(s, last, used) && i < |s| && s[i].key == p.key
    requires UsedNow(p, last, used, last', used')
    ensures IsLru([p] + Without(s, i), last', used')
  {
    var forgotten := k => if k == p.key then Never else last(k);
    Removed(s, i, last, used, forgotten);
    Added(Without(s, i), p, forgotten, used, last', used');
  }

  lemma NotListed<K, V>(s: seq<Pair<K, V>>, k: K)
    ensures Has(s, k) <==> Listed(s, k)
  {
  }

  ghost predicate LruOfRun<K(!new), V>(ops: seq<Op<K, V>>, max: nat, elasticity: nat) {
    IsLru(Run(ops, max, elasticity), k => LastInserted(ops, k), k => LastUse(ops, k, max, elasticity))
  }

  lemma InsertIsLru<K(!new), V>(s: seq<Pair<K, V>>, p: Pair<K, V>, max: nat, elasticity: nat,
                                last: K -> Seen<V>, used: K -> nat, last': K -> Seen<V>, used': K -> nat)
    requires IsLru(s, last, used) && UsedNow(p, last, used, last', used')
    ensures IsLru(Insert(s, p.key, p.value, max, elasticity), last', used')
  {
    if Has(s, p.key) {
      ToFront(s, Find(s, p.key), p, last, used, last', used');
    } else {
      NotListed(s, p.key);
      Added(s, p, last, used, last', used');
      if |Insert(s, p.key, p.value, max, elasticity)| <= |s| {
        Cut([p] + s, max, last', used');
      }
    }
  }

  lemma StepIsLru<K(!new), V>(ops: seq<Op<K, V>>, max: nat, elasticity: nat)
    requires ops != [] && LruOfRun(ops[..|ops| - 1], max, elasticity)
    ensures LruOfRun(ops, max, elasticity)
  {
    var init, op := ops[..|ops| - 1], ops[|ops| - 1];
    var s := Run(init, max, elasticity);
    var last, last' := k => LastInserted(init, k), k => LastInserted(ops, k);
    var used, used' := k => LastUse(init, k, max, elasticity), k => LastUse(ops, k, max, elasticity);
    match op
    case DoInsert(k, v) =>
      InsertIsLru(s, Pair(k, v), max, elasticity, last, used, last', used');
    case DoGet(k) =>
      if Has(s, k) {
        ToFront(s, Find(s, k), s[Find(s, k)], last, used, last', used');
      }
    case DoRemove(k) =>
      if Has(s, k) {
        Removed(s, Find(s, k), last, used, last');
      }
  }

  /** Every operation sequence gives such a list, and its size is within the hard limit; with
      no elasticity it is within `max`. */
  lemma {:induction false} RunIsLru<K(!new), V>(ops: seq<Op<K, V>>, max: nat, elasticity: nat)
    ensures LruOfRun(ops, max, elasticity)
    ensures max > 0 ==> |Run(ops, max, elasticity)| < max + elasticity || |Run(ops, max, elasticity)| <= max
  {
    if ops != [] {
      RunIsLru(ops[..|ops| - 1], max, elasticity);
      StepIsLru(ops, max, elasticity);
    }
  }

  // ----- nothing is evicted too early -----

  ghost predicate Different<K>(keys: seq<K>) { forall i, j :: 0 <= i < j < |keys| ==> keys[i] != keys[j] }

  /** `n` other keys have been used since `k` was. */
  ghost predicate UsedSince<K(!new)>(used: K -> nat, k: K, n: nat) {
    exists keys: seq<K> :: |keys| == n && Different(keys) && AllLater(used, k, keys)
  }

  ghost predicate AllLater<K>(used: K -> nat, k: K, keys: seq<K>) {
    forall i :: 0 <= i < |keys| ==> used(keys[i]) > used(k)
  }

  /** A key that is missing though inserted and never removed has made room for `max` keys that
      were all used after it. */
  ghost predicate OnlyForRoom<K(!new), V>(s: seq<Pair<K, V>>, last: K -> Seen<V>, used: K -> nat, max: nat) {
    forall k :: last(k) != Never && !Listed(s, k) ==> max > 0 && UsedSince(used, k, max)
  }

  ghost function Keys<K, V>(s: seq<Pair<K, V>>): (r: seq<K>)
    ensures |r| == |s| && forall i :: 0 <= i < |s| ==> r[i] == s[i].key
  {
    seq(|s|, i requires 0 <= i < |s| => s[i].key)
  }

  lemma UsedSinceGrows<K(!new)>(used: K -> nat, used': K -> nat, k: K, n: nat)
    requires UsedSince(used, k, n) && used'(k) == used(k) && forall x :: used'(x) >= used(x)
    ensures UsedSince(used', k, n)
  {
    var keys: seq<K> :| |keys| == n && Different(keys) && AllLater(used, k, keys);
    assert AllLater(used', k, keys);
  }

  /** What is cut off makes room for what is kept. */
  lemma CutOff<K(!new), V>(s: seq<Pair<K, V>>, m: nat, last: K -> Seen<V>, used: K -> nat, k: K)
    requires Ordered(s, last, used) && m <= |s| && Listed(s, k) && !Listed(s[..m], k)
    ensures UsedSince(used, k, m)
  {
    var i :| 0 <= i < |s| && s[i].key == k;
    NotInPrefix(s, m, k, i);
    var keys := Keys(s[..m]);
    OrderedKeysDistinct(s, last, used);
    assert Different(keys) && AllLater(used, k, keys);
  }

  lemma StillListed<K, V>(s: seq<Pair<K, V>>, p: Pair<K, V>, k: K)
    requires Listed(s, k)
    ensures Listed([p] + s, k)
  {
    var i :| 0 <= i < |s| && s[i].key == k;
    assert ([p] + s)[i + 1].key == k;
  }

  lemma InsertMakesRoom<K(!new), V>(s: seq<Pair<K, V>>, p: Pair<K, V>, max: nat, elasticity: nat,
                                    last: K -> Seen<V>, used: K -> nat, last': K -> Seen<V>, used': K -> nat, k: K)
    requires IsLru(s, last, used) && UsedNow(p, last, used, last', used') && Listed(s, k)
    requires !Listed(Insert(s, p.key, p.value, max, elasticity), k)
    ensures max > 0 && UsedSince(used', k, max)
  {
    if Has(s, p.key) {
      FrontListed(s, Find(s, p.key), p, k);
    } else {
      NotListed(s, p.key);
      Added(s, p, last, used, last', used');
      StillListed(s, p, k);
      CutOff([p] + s, max, last', used', k);
    }
  }

  lemma FrontListed<K(!new), V>(s: seq<Pair<K, V>>, i: nat, p: Pair<K, V>, k: K)
    requires i < |s| && s[i].key == p.key && Listed(s, k)
    ensures Listed([p] + Without(s, i), k)
  {
    var s' := [p] + Without(s, i);
    var j :| 0 <= j < |s| && s[j].key == k;
    if j == i {
      assert s'[0].key == k;
    } else {
      assert s'[if j < i then j + 1 else j].key == k;
    }
  }

  ghost predicate RoomOfRun<K(!new), V>(ops: seq<Op<K, V>>, max: nat, elasticity: nat) {
    OnlyForRoom(Run(ops, max, elasticity), k => LastInserted(ops, k), k => LastUse(ops, k, max, elasticity), max)
  }

  /** A key that an operation makes disappear. */
  lemma Disappears<K(!new), V>(ops: seq<Op<K, V>>, max: nat, elasticity: nat, k: K)
    requires ops != [] && LruOfRun(ops[..|ops| - 1], max, elasticity)
    requires Listed(Run(ops[..|ops| - 1], max, elasticity), k) && !Listed(Run(ops, max, elasticity), k)
    requires LastInserted(ops, k) != Never
    ensures max > 0 && UsedSince(k => LastUse(ops, k, max, elasticity), k, max)
  {
    var init, op := ops[..|ops| - 1], ops[|ops| - 1];
    var s := Run(init, max, elasticity);
    match op
    case DoInsert(x, v) =>
      InsertMakesRoom(s, Pair(x, v), max, elasticity, k => LastInserted(init, k), k => LastUse(init, k, max, elasticity),
                      k => LastInserted(ops, k), k => LastUse(ops, k, max, elasticity), k);
    case DoGet(x) =>
      if Has(s, x) {
        FrontListed(s, Find(s, x), s[Find(s, x)], k);
      }
    case DoRemove(x) =>
      if Has(s, x) {
        WithoutListed(s, Find(s, x), k);
      }
  }

  lemma WithoutListed<K(!new), V>(s: seq<Pair<K, V>>, i: nat, k: K)
    requires i < |s| && s[i].key != k && Listed(s, k)
    ensures Listed(Without(s, i), k)
  {
    var j :| 0 <= j < |s| && s[j].key == k;
    assert Without(s, i)[if j < i then j else j - 1].key == k;
  }

  lemma InsertListed<K(!new), V>(s: seq<Pair<K, V>>, k: K, v: V, max: nat, elasticity: nat)
    ensures Listed(Insert(s, k, v, max, elasticity), k)
  {
    assert Insert(s, k, v, max, elasticity)[0].key == k;
  }

  /** A key that was missing before an operation and is missing after it. */
  lemma StaysMissing<K(!new), V>(ops: seq<Op<K, V>>, max: nat, elasticity: nat, k: K)
    requires ops != [] && RoomOfRun(ops[..|ops| - 1], max, elasticity)
    requires !Listed(Run(ops[..|ops| - 1], max, elasticity), k) && !Listed(Run(ops, max, elasticity), k)
    requires LastInserted(ops, k) != Never
    ensures max > 0 && UsedSince(k => LastUse(ops, k, max, elasticity), k, max)
  {
    var init, op := ops[..|ops| - 1], ops[|ops| - 1];
    var s := Run(init, max, elasticity);
    NotListed(s, k);
    if op.DoInsert? {
      InsertListed(s, op.k, op.v, max, elasticity);
    }
    UsedSinceGrows(k => LastUse(init, k, max, elasticity), k => LastUse(ops, k, max, elasticity), k, max);
  }

  /** In every operation sequence an inserted key that was not removed is missing only if at
      least `max` other keys have been used since; with no limit, never. */
  lemma {:induction false} EvictedOnlyForRoom<K(!new), V>(ops: seq<Op<K, V>>, max: nat, elasticity: nat)
    ensures RoomOfRun(ops, max, elasticity)
  {
    if ops != [] {
      var init := ops[..|ops| - 1];
      EvictedOnlyForRoom(init, max, elasticity);
      RunIsLru(init, max, elasticity);
      forall k | LastInserted(ops, k) != Never && !Listed(Run(ops, max, elasticity), k)
        ensures max > 0 && UsedSince(k => LastUse(ops, k, max, elasticity), k, max)
      {
        if Listed(Run(init, max, elasticity), k) {
          Disappears(ops, max, elasticity, k);
        } else {
          StaysMissing(ops, max, elasticity, k);
        }
      }
    }
  }
}
