/** numpy's `argmin` / `argmax` on a one-dimensional array: the FIRST index holding the extreme. */
module Extremes {

  /** `k` holds a minimal key and every earlier index holds a strictly larger one. */
  predicate IsFirstMin(keys: seq<real>, k: int) {
    && 0 <= k < |keys|
    && (forall j :: 0 <= j < |keys| ==> keys[k] <= keys[j])
    && (forall j :: 0 <= j < k ==> keys[k] < keys[j])
  }

  /** `k` holds a maximal key and every earlier index holds a strictly smaller one. */
  predicate IsFirstMax(keys: seq<real>, k: int) {
    && 0 <= k < |keys|
    && (forall j :: 0 <= j < |keys| ==> keys[j] <= keys[k])
    && (forall j :: 0 <= j < k ==> keys[j] < keys[k])
  }

  predicate IsFirstExtreme(keys: seq<real>, highest: bool, k: int) {
    if highest then IsFirstMax(keys, k) else IsFirstMin(keys, k)
  }

  /** `np.argmin`: scans left to right and moves only on a strictly smaller key. */
  function ArgMin(keys: seq<real>): (k: nat)
    requires |keys| > 0
    ensures IsFirstMin(keys, k)
  {
    ArgMinOfPrefix(keys, |keys|)
  }

  /** The first index of least key among `keys[..n]`. */
  function ArgMinOfPrefix(keys: seq<real>, n: nat): (k: nat)
    requires 0 < n <= |keys|
    ensures IsFirstMin(keys[..n], k)
  {
    if n == 1 then 0
    else
      var k := ArgMinOfPrefix(keys, n - 1);
      if keys[n - 1] < keys[k] then n - 1 else k
  }

  /** `np.argmax`, and Python's `max(..., key=...)`: moves only on a strictly larger key. */
  function ArgMax(keys: seq<real>): (k: nat)
    requires |keys| > 0
    ensures IsFirstMax(keys, k)
  {
    ArgMaxOfPrefix(keys, |keys|)
  }

  /** The first index of greatest key among `keys[..n]`. */
  function ArgMaxOfPrefix(keys: seq<real>, n: nat): (k: nat)
    requires 0 < n <= |keys|
    ensures IsFirstMax(keys[..n], k)
  {
    if n == 1 then 0
    else
      var k := ArgMaxOfPrefix(keys, n - 1);
      if keys[k] < keys[n - 1] then n - 1 else k
  }

  /** The first-index tie-break leaves no choice: at most one index is the first extreme. */
  lemma FirstExtremeUnique(keys: seq<real>, highest: bool, i: int, j: int)
    requires IsFirstExtreme(keys, highest, i)
    requires IsFirstExtreme(keys, highest, j)
    ensures i == j
  {
    assert keys[i] == keys[j];
  }
}
