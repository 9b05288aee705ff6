/** JavaScript's Map with string keys: it iterates in the order the keys were first set. */
module JsMaps {
  datatype JsMap<V> = JsMap(keys: seq<string>, at: map<string, V>) {
    ghost predicate Valid() {
      && |keys| == |at|
      && forall k :: k in keys <==> k in at
    }

    function Set(k: string, v: V): (m: JsMap<V>)
      requires Valid()
      ensures m.Valid() && m.at == at[k := v]
    {
      JsMap(if k in at then keys else keys + [k], at[k := v])
    }

    /** What `for (const [k, v] of m)` runs over. */
    function Entries(): (es: seq<(string, V)>)
      requires Valid()
      ensures |es| == |keys|
      ensures forall i :: 0 <= i < |es| ==> es[i] == (keys[i], at[keys[i]])
    {
      seq(|keys|, i requires 0 <= i < |keys| => (keys[i], at[keys[i]]))
    }

    lemma DistinctKeys(i: nat, j: nat)
      requires Valid() && i < j < |keys|
      ensures keys[i] != keys[j]
    {
      Duplicates(keys, at.Keys, i, j);
    }
  }

  lemma {:induction false} ListSize(keys: seq<string>, s: set<string>)
    requires forall k :: k in s ==> k in keys
    ensures |s| <= |keys|
  {
    if keys == [] {
      assert s == {};
    } else {
      ListSize(keys[1..], s - {keys[0]});
    }
  }

  lemma Duplicates(keys: seq<string>, s: set<string>, i: nat, j: nat)
    requires i < j < |keys| == |s|
    requires forall k :: k in s ==> k in keys
    ensures keys[i] != keys[j]
  {
    if keys[i] == keys[j] {
      var fewer := keys[..j] + keys[j + 1..];
      forall k | k in s ensures k in fewer {
        var n :| 0 <= n < |keys| && keys[n] == k;
        assert k == fewer[if n < j then n else if n == j then i else n - 1];
      }
      ListSize(fewer, s);
      assert false;
    }
  }
}
