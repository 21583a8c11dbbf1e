/** The part of a StableBTreeMap the ledger relies on. Point lookups,
    inserts and removals are operations on a `map`; `values()` lists every
    stored record once, in ascending order of the keys, so two listings of
    the same store are the same sequence. */
module KeyedStore {

  /** The order the store keeps its keys in: lexicographic on characters. */
  predicate KeyLess(a: string, b: string) {
    if |a| == 0 then |b| > 0
    else if |b| == 0 then false
    else if a[0] != b[0] then a[0] < b[0]
    else KeyLess(a[1..], b[1..])
  }

  lemma {:induction false} KeyLessAsymmetric(a: string, b: string)
    ensures KeyLess(a, b) ==> !KeyLess(b, a)
  {
    if |a| > 0 && |b| > 0 && a[0] == b[0] {
      KeyLessAsymmetric(a[1..], b[1..]);
    }
  }

  lemma {:induction false} KeyLessTransitive(a: string, b: string, c: string)
    ensures KeyLess(a, b) && KeyLess(b, c) ==> KeyLess(a, c)
  {
    if |a| > 0 && |b| > 0 && |c| > 0 && a[0] == b[0] && b[0] == c[0] {
      KeyLessTransitive(a[1..], b[1..], c[1..]);
    }
  }

  lemma {:induction false} KeyLessTotal(a: string, b: string)
    ensures a != b ==> KeyLess(a, b) || KeyLess(b, a)
  {
    if |a| > 0 && |b| > 0 && a[0] == b[0] {
      assert a == [a[0]] + a[1..] && b == [b[0]] + b[1..];
      KeyLessTotal(a[1..], b[1..]);
    }
  }

  /** `k` is the smallest key of `s`. */
  predicate IsLeast(k: string, s: set<string>) {
    k in s && forall j :: j in s && j != k ==> KeyLess(k, j)
  }

  /** Every non-empty set of keys has a smallest key. */
  lemma LeastExists(s: set<string>)
    requires s != {}
    ensures exists k :: IsLeast(k, s)
    decreases s
  {
    var x :| x in s;
    if s != {x} {
      LeastExists(s - {x});
      var y :| IsLeast(y, s - {x});
      KeyLessTotal(x, y);
      if KeyLess(x, y) {
        forall j | j in s && j != x ensures KeyLess(x, j) {
          if j != y { KeyLessTransitive(x, y, j); }
        }
        assert IsLeast(x, s);
      } else {
        assert IsLeast(y, s);
      }
    } else {
      assert IsLeast(x, s);
    }
  }

  /** `keys` is strictly increasing. */
  ghost predicate Ascending(keys: seq<string>) {
    forall i, j :: 0 <= i < j < |keys| ==> KeyLess(keys[i], keys[j])
  }

  /** An ascending sequence repeats no key. */
  lemma AscendingDistinct(keys: seq<string>)
    requires Ascending(keys)
    ensures forall i, j :: 0 <= i < j < |keys| ==> keys[i] != keys[j]
  {
    forall i, j | 0 <= i < j < |keys| ensures keys[i] != keys[j] {
      KeyLessAsymmetric(keys[i], keys[j]);
    }
  }

  /** `keys` lists every key of `m` exactly once. */
  ghost predicate Enumerates<V>(m: map<string, V>, keys: seq<string>) {
    && |keys| == |m|
    && (forall i, j :: 0 <= i < j < |keys| ==> keys[i] != keys[j])
    && (forall k :: k in m <==> k in keys)
  }

  /** Two ascending sequences with the same elements are equal: a set of
      keys has only one ascending listing. */
  lemma {:induction false} AscendingUnique(a: seq<string>, b: seq<string>)
    requires Ascending(a) && Ascending(b)
    requires forall k :: k in a <==> k in b
    ensures a == b
    decreases |a|
  {
    assert b != [] ==> b[0] in a;
    if a != [] {
      assert a[0] in a;
      assert b != [];
      assert b[0] in b;
      var i :| 0 <= i < |a| && a[i] == b[0];
      var j :| 0 <= j < |b| && b[j] == a[0];
      if a[0] != b[0] {
        assert KeyLess(a[0], a[i]) && KeyLess(a[i], a[0]) by {
          assert 0 < i && 0 < j;
        }
        KeyLessAsymmetric(a[0], a[i]);
        assert false;
      }
      assert a[0] == b[0];
      forall k ensures k in a[1..] <==> k in b[1..] {
        if k in a[1..] {
          var p :| 1 <= p < |a| && a[p] == k;
          KeyLessAsymmetric(a[0], a[p]);
          assert k in a;
          var q :| 0 <= q < |b| && b[q] == k;
          assert q != 0;
          assert b[1..][q - 1] == k;
        }
        if k in b[1..] {
          var p :| 1 <= p < |b| && b[p] == k;
          KeyLessAsymmetric(b[0], b[p]);
          assert k in b;
          var q :| 0 <= q < |a| && a[q] == k;
          assert q != 0;
          assert a[1..][q - 1] == k;
        }
      }
      AscendingUnique(a[1..], b[1..]);
      assert a == [a[0]] + a[1..] && b == [b[0]] + b[1..];
    }
  }

  /** The keys of `s` in ascending order. */
  ghost function SortedKeys(s: set<string>): (keys: seq<string>)
    ensures |keys| == |s|
    ensures forall k :: k in keys <==> k in s
    ensures Ascending(keys)
    decreases s
  {
    if s == {} then []
    else
      LeastExists(s);
      var k :| IsLeast(k, s);
      var rest := SortedKeys(s - {k});
      assert forall j :: j in rest ==> KeyLess(k, j);
      [k] + rest
  }

  /** The order in which the store lists `m`: its keys, ascending. */
  ghost function KeyOrder<V>(m: map<string, V>): (keys: seq<string>)
    ensures Enumerates(m, keys) && Ascending(keys)
  {
    var keys := SortedKeys(m.Keys);
    AscendingDistinct(keys);
    assert |m.Keys| == |m|;
    keys
  }

  /** An ascending listing of every key of `m` is the store's key order. */
  lemma KeyOrderIs<V>(m: map<string, V>, keys: seq<string>)
    requires Ascending(keys)
    requires forall k :: k in m <==> k in keys
    ensures KeyOrder(m) == keys
  {
    AscendingUnique(KeyOrder(m), keys);
  }

  /** In an ascending listing, a smaller key comes earlier. */
  lemma SmallerKeyFirst(keys: seq<string>, i: int, j: int)
    requires Ascending(keys)
    requires 0 <= i < |keys| && 0 <= j < |keys|
    requires KeyLess(keys[j], keys[i])
    ensures j < i
  {
    if i < j {
      KeyLessAsymmetric(keys[i], keys[j]);
    } else if i == j {
      KeyLessAsymmetric(keys[i], keys[j]);
    }
  }

  /** The records stored under `keys`, in the order of `keys`. */
  function ValuesAt<V>(m: map<string, V>, keys: seq<string>): (vs: seq<V>)
    requires forall k :: k in keys ==> k in m
    ensures |vs| == |keys|
    ensures forall i :: 0 <= i < |keys| ==> vs[i] == m[keys[i]]
  {
    if keys == [] then [] else [m[keys[0]]] + ValuesAt(m, keys[1..])
  }

  /** What `values()` returns: the records of `m`, in key order. */
  ghost function InKeyOrder<V>(m: map<string, V>): seq<V> {
    ValuesAt(m, KeyOrder(m))
  }

  /** `values()`: every record of the store, each exactly once, in ascending
      order of the keys. */
  method Values<V>(m: map<string, V>) returns (vs: seq<V>)
    ensures |vs| == |m|
    ensures vs == InKeyOrder(m)
  {
    var rest := m.Keys;
    ghost var keys: seq<string> := [];
    vs := [];
    while rest != {}
      invariant rest <= m.Keys
      invariant forall k :: k in m <==> (k in keys || k in rest)
      invariant forall k :: k in keys ==> k !in rest
      invariant Ascending(keys)
      invariant forall i, r :: 0 <= i < |keys| && r in rest ==> KeyLess(keys[i], r)
      invariant |vs| == |keys|
      invariant forall i :: 0 <= i < |keys| ==> vs[i] == m[keys[i]]
      decreases rest
    {
      LeastExists(rest);
      var k :| IsLeast(k, rest);
      vs, keys := vs + [m[k]], keys + [k];
      rest := rest - {k};
    }
    KeyOrderIs(m, keys);
  }

  /** The listed values are exactly the stored records. */
  lemma ValuesAtAreStored<V>(m: map<string, V>, keys: seq<string>)
    requires Enumerates(m, keys)
    ensures forall v :: v in ValuesAt(m, keys) <==> v in m.Values
  {
    var vs := ValuesAt(m, keys);
    forall v | v in m.Values ensures v in vs {
      var k :| k in m && m[k] == v;
      var i :| 0 <= i < |keys| && keys[i] == k;
      assert vs[i] == v;
    }
  }

  /** Some listed value satisfies `P` exactly when some stored record does. */
  lemma ExistsInValues<V>(m: map<string, V>, keys: seq<string>, P: V -> bool)
    requires Enumerates(m, keys)
    ensures (exists i :: 0 <= i < |keys| && P(ValuesAt(m, keys)[i])) ==> (exists k :: k in m && P(m[k]))
    ensures (exists k :: k in m && P(m[k])) ==> (exists i :: 0 <= i < |keys| && P(ValuesAt(m, keys)[i]))
  {
    var vs := ValuesAt(m, keys);
    if k :| k in m && P(m[k]) {
      var i :| 0 <= i < |keys| && keys[i] == k;
      assert P(vs[i]);
    }
    if i :| 0 <= i < |keys| && P(vs[i]) {
      var k := keys[i];
      assert k in m && P(m[k]);
    }
  }
}
