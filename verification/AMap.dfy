/** include/amap.h: a map kept as a list of key-value pairs. */
module AMap {
  import opened AList

  datatype KeyVal<K, V> = KeyVal(key: K, val: V)

  /** Pairs compare equal when their keys do. */
  predicate SameKey<K(==), V>(a: KeyVal<K, V>, b: KeyVal<K, V>) { a.key == b.key }

  ghost predicate DistinctKeys<K, V>(kvs: seq<KeyVal<K, V>>) {
    forall i, j :: 0 <= i < j < |kvs| ==> kvs[i].key != kvs[j].key
  }

  /** The map that a list of pairs stands for. */
  ghost function Bindings<K, V>(kvs: seq<KeyVal<K, V>>): map<K, V> {
    if kvs == [] then map[] else Bindings(kvs[..|kvs| - 1])[kvs[|kvs| - 1].key := kvs[|kvs| - 1].val]
  }

  lemma {:induction false} BindingsOf<K, V>(kvs: seq<KeyVal<K, V>>)
    requires DistinctKeys(kvs)
    ensures forall i :: 0 <= i < |kvs| ==> kvs[i].key in Bindings(kvs) && Bindings(kvs)[kvs[i].key] == kvs[i].val
    ensures forall k :: k in Bindings(kvs) ==> exists i :: 0 <= i < |kvs| && kvs[i].key == k
  {
    if kvs != [] {
      var before := kvs[..|kvs| - 1];
      BindingsOf(before);
      forall k | k in Bindings(kvs) ensures exists i :: 0 <= i < |kvs| && kvs[i].key == k {
        if k == kvs[|kvs| - 1].key {
          assert 0 <= |kvs| - 1 < |kvs|;
        } else {
          assert k in Bindings(before);
          var i :| 0 <= i < |before| && before[i].key == k;
          assert kvs[i].key == k;
        }
      }
    }
  }

  /** Changing the value of one pair changes that binding and no other. */
  lemma {:induction false} BindingsUpdate<K, V>(kvs: seq<KeyVal<K, V>>, i: nat, val: V)
    requires DistinctKeys(kvs) && i < |kvs|
    ensures DistinctKeys(kvs[i := KeyVal(kvs[i].key, val)])
    ensures Bindings(kvs[i := KeyVal(kvs[i].key, val)]) == Bindings(kvs)[kvs[i].key := val]
  {
    var now := kvs[i := KeyVal(kvs[i].key, val)];
    BindingsOf(kvs);
    BindingsOf(now);
    forall k ensures k in Bindings(now) <==> k in Bindings(kvs) {
      if k in Bindings(now) {
        var j :| 0 <= j < |now| && now[j].key == k;
        assert kvs[j].key == k;
      }
      if k in Bindings(kvs) {
        var j :| 0 <= j < |kvs| && kvs[j].key == k;
        assert now[j].key == k;
      }
    }
    forall k | k in Bindings(kvs) ensures Bindings(now)[k] == if k == kvs[i].key then val else Bindings(kvs)[k] {
      var j :| 0 <= j < |kvs| && kvs[j].key == k;
      assert now[j].key == k;
    }
  }

  class Map<K(==), V> {
    const list: List<KeyVal<K, V>>

    ghost predicate Valid()
      reads this, list, list.nodes
    {
      list.Valid() && DistinctKeys(list.contents)
    }

    ghost function Value(): map<K, V>
      reads list
    {
      Bindings(list.contents)
    }

    constructor ()
      ensures Valid() && Value() == map[] && fresh(list)
    {
      list := new List();
    }

    /** The iterator for `key`: its node, or the end if the map does not contain it. */
    method Find(key: K, dummy: V) returns (iter: Node?<KeyVal<K, V>>, ghost i: nat)
      requires Valid()
      ensures iter != null <==> key in Value()
      ensures iter != null ==> i < |list.nodes| && iter == list.nodes[i] && list.contents[i].key == key
    {
      iter, i := list.Find(KeyVal(key, dummy), SameKey);
      BindingsOf(list.contents);
    }

    method Contains(key: K, dummy: V) returns (found: bool)
      requires Valid()
      ensures found <==> key in Value()
    {
      ghost var i;
      var iter;
      iter, i := Find(key, dummy);
      found := iter != null;
    }

    /** operator[]: the pair of `key`, added with a default value when it is absent. */
    method At(key: K, default: V) returns (pair: Node<KeyVal<K, V>>, ghost i: nat)
      requires Valid()
      modifies list, Only(list.tail)
      ensures Valid() && i < |list.nodes| && pair == list.nodes[i] && list.contents[i].key == key
      ensures Value() == if key in old(Value()) then old(Value()) else old(Value())[key := default]
      ensures if key in old(Value()) then list.contents == old(list.contents) && list.nodes == old(list.nodes)
              else fresh(pair) && list.contents == old(list.contents) + [KeyVal(key, default)]
    {
      var iter;
      iter, i := Find(key, default);
      if iter != null { return iter, i; }
      BindingsOf(list.contents);
      i := list.size;
      pair := list.Append(KeyVal(key, default));
      assert list.contents[..|list.contents| - 1] == old(list.contents);
    }

    /** An assignment through the reference that operator[] returns: m[key] = val. */
    method Assign(key: K, default: V, val: V)
      requires Valid()
      modifies list, list.nodes
      ensures Valid() && Value() == old(Value())[key := val]
    {
      hide Bindings, DistinctKeys, Behind, Before;
      Ends(list.nodes);
      var pair;
      ghost var i;
      pair, i := At(key, default);
      BindingsUpdate(list.contents, i, val);
      list.Store(pair, i, KeyVal(key, val));
    }
  }
}
