/** Failure-compatible wrappers and sums over finite maps, shared by every component. */
module Basics {

  datatype Option<+T> = None | Some(value: T)

  /** A value, or a refusal; the wording of error messages is not modelled. */
  datatype Result<+T> = Ok(value: T) | Err

  /** The sum of a map's values: what a Go loop over the map adds up. */
  ghost function MapSum<K>(m: map<K, int>): int {
    if m == map[] then 0
    else
      var k :| k in m;
      m[k] + MapSum(m - {k})
  }

  lemma {:induction false} MapSumRemove<K>(m: map<K, int>, k: K)
    requires k in m
    ensures MapSum(m) == m[k] + MapSum(m - {k})
  {
    var j :| j in m && MapSum(m) == m[j] + MapSum(m - {j});
    if j != k {
      MapSumRemove(m - {j}, k);
      MapSumRemove(m - {k}, j);
      assert (m - {j}) - {k} == (m - {k}) - {j};
    }
  }

  lemma MapSumUpdate<K>(m: map<K, int>, k: K, v: int)
    ensures MapSum(m[k := v]) == MapSum(m) + v - (if k in m then m[k] else 0)
  {
    MapSumRemove(m[k := v], k);
    if k in m {
      MapSumRemove(m, k);
      assert m[k := v] - {k} == m - {k};
    } else {
      assert m[k := v] - {k} == m;
    }
  }

  /** Go's `m[k]++` on a counting map. */
  function Bump<K>(m: map<K, int>, k: K): (r: map<K, int>)
    ensures MapSum(r) == MapSum(m) + 1
  {
    MapSumUpdate(m, k, (if k in m then m[k] else 0) + 1);
    m[k := (if k in m then m[k] else 0) + 1]
  }

  // ------------------------------------------------------------ blank text

  /** Go's `unicode.IsSpace`. */
  predicate IsSpace(c: char) {
    || c in {'\t', '\n', '\U{0B}', '\U{0C}', '\r', ' ', '\U{85}', '\U{A0}', '\U{1680}', '\U{2028}', '\U{2029}', '\U{202F}', '\U{205F}', '\U{3000}'}
    || '\U{2000}' <= c <= '\U{200A}'
  }

  /** `strings.TrimSpace(s) == ""`. */
  predicate Blank(s: string) {
    forall i :: 0 <= i < |s| ==> IsSpace(s[i])
  }
}
