/**
 * Annotation maps keyed by annotation class: lookup that answers "absent"
 * instead of failing, the collection of values, and the map a sequence of
 * last-write-wins insertions leaves behind.
 */
module Annotations {
  import opened Wrappers
  import opened Descriptors

  type AnnotationMap<V> = map<ClassDescriptor, V>

  /** `Map.get`: the value stored under `k`, or absent. */
  function Lookup<V>(m: AnnotationMap<V>, k: ClassDescriptor): (r: Option<V>)
    ensures r.Some? <==> k in m
    ensures r.Some? ==> m[k] == r.value
  {
    if k in m then Some(m[k]) else None
  }

  /** The keys of `m` holding the value `v`. */
  ghost function KeysHolding<V>(m: AnnotationMap<V>, v: V): set<ClassDescriptor> {
    set k | k in m && m[k] == v
  }

  /**
   * `Map.values()`: one occurrence of a value per key that holds it, so the
   * collection is as large as the map.
   */
  ghost function ValuesOf<V>(m: AnnotationMap<V>): (r: multiset<V>)
    ensures |r| == |m|
    ensures forall v :: v in r ==> v in m.Values
    ensures forall v :: v in m.Values ==> r[v] == |KeysHolding(m, v)|
    decreases |m|
  {
    if m == map[] then multiset{}
    else
      var k :| k in m;
      var rest := m - {k};
      var r := ValuesOf(rest) + multiset{m[k]};
      assert forall v :: v in m.Values ==> r[v] == |KeysHolding(m, v)| by {
        forall v | v in m.Values
          ensures r[v] == |KeysHolding(m, v)|
        {
          KeysHoldingWithout(m, k, v);
        }
      }
      assert forall v :: v in r ==> v in m.Values by {
        forall v | v in r
          ensures v in m.Values
        {
          if v != m[k] {
            var k' :| k' in rest && rest[k'] == v;
            assert m[k'] == v;
          }
        }
      }
      r
  }

  /** Taking key `k` out of `m` removes exactly `k` from the keys holding `m[k]`. */
  lemma KeysHoldingWithout<V>(m: AnnotationMap<V>, k: ClassDescriptor, v: V)
    requires k in m
    ensures |KeysHolding(m, v)| == |KeysHolding(m - {k}, v)| + (if m[k] == v then 1 else 0)
    ensures v !in (m - {k}).Values ==> KeysHolding(m - {k}, v) == {}
  {
    var rest := m - {k};
    if m[k] == v {
      assert KeysHolding(m, v) == KeysHolding(rest, v) + {k};
    } else {
      assert KeysHolding(m, v) == KeysHolding(rest, v);
    }
    assert forall k' :: k' in KeysHolding(rest, v) ==> rest[k'] in rest.Values;
  }

  /** One `put` of an annotation value under a key. */
  datatype Put<V> = Put(key: ClassDescriptor, value: V)

  /** The map left by applying `puts` in order to an empty map. */
  function AnnotationsOf<V>(puts: seq<Put<V>>): AnnotationMap<V>
  {
    if puts == [] then map[]
    else
      var last := puts[|puts| - 1];
      AnnotationsOf(puts[..|puts| - 1])[last.key := last.value]
  }

  /** `i` is the position of the last put under key `k`. */
  ghost predicate IsLastPut<V>(puts: seq<Put<V>>, k: ClassDescriptor, i: int) {
    0 <= i < |puts| && puts[i].key == k &&
    forall j :: i < j < |puts| ==> puts[j].key != k
  }

  /**
   * Last write wins: a key is present exactly when some put used it, and its
   * value is the one of the last put under that key.
   */
  lemma {:induction false} LastPutWins<V>(puts: seq<Put<V>>, k: ClassDescriptor)
    ensures k in AnnotationsOf(puts) <==> exists i :: 0 <= i < |puts| && puts[i].key == k
    ensures forall i :: IsLastPut(puts, k, i) ==> k in AnnotationsOf(puts) && AnnotationsOf(puts)[k] == puts[i].value
  {
    if puts != [] {
      var n := |puts| - 1;
      var init := puts[..n];
      var before := AnnotationsOf(init);
      assert AnnotationsOf(puts) == before[puts[n].key := puts[n].value];
      if puts[n].key == k {
        assert k in AnnotationsOf(puts) && AnnotationsOf(puts)[k] == puts[n].value;
        assert forall i :: IsLastPut(puts, k, i) ==> i == n;
      } else {
        LastPutWins(init, k);
        forall i | IsLastPut(puts, k, i)
          ensures IsLastPut(init, k, i)
        {
        }
        if exists i :: 0 <= i < |puts| && puts[i].key == k {
          var i :| 0 <= i < |puts| && puts[i].key == k;
          assert init[i].key == k;
        }
        if exists i :: 0 <= i < |init| && init[i].key == k {
          var i :| 0 <= i < |init| && init[i].key == k;
          assert puts[i].key == k;
        }
      }
    }
  }
}
