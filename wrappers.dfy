/** Nullable values: JavaScript's `null`/`undefined` become `None`. */
module Wrappers {

  datatype Option<+T> = None | Some(value: T) {

    /** `x ?? d`: the value if present, otherwise the default. */
    function GetOr(default: T): T {
      match this
      case Some(v) => v
      case None => default
    }
  }

  /** `m.get(k) ?? null` on a JavaScript Map. */
  function Lookup<K, V>(m: map<K, V>, k: K): (r: Option<V>)
    ensures r.Some? <==> k in m
    ensures r.Some? ==> r.value == m[k]
  {
    if k in m then Some(m[k]) else None
  }

  /** `a[i]` on a JavaScript array of nullable numbers: out of range reads `undefined`. */
  function At<T>(a: seq<Option<T>>, i: int): (r: Option<T>)
    ensures r.Some? <==> 0 <= i < |a| && a[i].Some?
    ensures r.Some? ==> r.value == a[i].value
  {
    if 0 <= i < |a| then a[i] else None
  }

  /** `a.filter((v) => v != null)`: the present values, in order. */
  function Somes<T(==)>(a: seq<Option<T>>): (r: seq<T>)
    ensures |r| <= |a|
    ensures forall k :: 0 <= k < |r| ==> Some(r[k]) in a
    ensures forall k :: 0 <= k < |a| && a[k].Some? ==> a[k].value in r
  {
    if a == [] then []
    else if a[0].Some? then [a[0].value] + Somes(a[1..])
    else Somes(a[1..])
  }

  /** Filtering a concatenation filters each part. */
  lemma {:induction false} SomesAppend<T>(a: seq<Option<T>>, b: seq<Option<T>>)
    ensures Somes(a + b) == Somes(a) + Somes(b)
  {
    if a == [] {
      assert a + b == b;
    } else {
      var ab := a + b;
      assert ab[0] == a[0] && ab[1..] == a[1..] + b;
      SomesAppend(a[1..], b);
      if a[0].Some? {
        calc {
          Somes(ab);
          [a[0].value] + Somes(a[1..] + b);
          [a[0].value] + (Somes(a[1..]) + Somes(b));
          ([a[0].value] + Somes(a[1..])) + Somes(b);
        }
      }
    }
  }
}
