/**
 * A `java.util.Map<String, String>` together with its iteration order: the
 * order `keySet()` and `values()` both follow. For a `LinkedHashMap` this is
 * insertion order; `put` of a key already present replaces its value in place.
 */
module JavaMaps {

  datatype JavaMap = JavaMap(order: seq<string>, entries: map<string, string>) {

    /** Every key is iterated exactly once. */
    ghost predicate Valid() {
      && (forall i, j :: 0 <= i < j < |order| ==> order[i] != order[j])
      && (forall k :: k in entries <==> k in order)
    }

    /** `size()`. */
    function Size(): (n: nat) {
      |order|
    }

    /** `values()`, in iteration order. */
    function Values(): (vs: seq<string>)
      requires Valid()
      ensures |vs| == |order|
      ensures forall i :: 0 <= i < |order| ==> order[i] in entries && vs[i] == entries[order[i]]
    {
      seq(|order|, i requires 0 <= i < |order| => entries[order[i]])
    }
  }

  /** A freshly constructed map. */
  const Empty: JavaMap := JavaMap([], map[])

  /** `put(k, v)`: a new key goes to the end of the iteration order. */
  function Put(m: JavaMap, k: string, v: string): (r: JavaMap)
    requires m.Valid()
    ensures r.Valid()
    ensures r.entries == m.entries[k := v]
    ensures r.order == if k in m.entries then m.order else m.order + [k]
  {
    if k in m.entries then JavaMap(m.order, m.entries[k := v])
    else JavaMap(m.order + [k], m.entries[k := v])
  }
}
