/** Small shared vocabulary. */
module Util {
  datatype Option<+T> = None | Some(value: T)

  /** A strictly positive integer; packet lengths are of this type. */
  type pos = n: int | 1 <= n witness 1

  predicate Distinct<T(==)>(s: seq<T>) {
    forall i, j :: 0 <= i < j < |s| ==> s[i] != s[j]
  }

  const ENOENT: int := 2
  const ENOMEM: int := 12
  const EINVAL: int := 22

  function One(b: bool): nat {
    if b then 1 else 0
  }

  /** The index of the first element that satisfies p; the length if there is none. */
  function First<T>(xs: seq<T>, p: T -> bool): (k: nat)
    ensures k <= |xs|
    ensures k < |xs| ==> p(xs[k])
    ensures forall j :: 0 <= j < k ==> !p(xs[j])
  {
    if xs == [] || p(xs[0]) then 0 else First(xs[1..], p) + 1
  }

  function Min(a: int, b: int): int {
    if a <= b then a else b
  }

  function Sum(xs: seq<int>): int {
    if xs == [] then 0 else Sum(xs[..|xs| - 1]) + xs[|xs| - 1]
  }

  lemma {:induction false} SumUpdate(xs: seq<int>, i: nat, v: int)
    requires i < |xs|
    ensures Sum(xs[i := v]) == Sum(xs) - xs[i] + v
  {
    var n := |xs| - 1;
    if i == n {
      assert xs[i := v][..n] == xs[..n];
    } else {
      assert xs[i := v][..n] == xs[..n][i := v];
      SumUpdate(xs[..n], i, v);
    }
  }

  /** A sum of naturals is zero exactly when every summand is. */
  lemma {:induction false} SumZero(xs: seq<int>)
    requires forall k :: 0 <= k < |xs| ==> xs[k] >= 0
    ensures Sum(xs) >= 0
    ensures Sum(xs) == 0 <==> forall k :: 0 <= k < |xs| ==> xs[k] == 0
  {
    if xs != [] {
      var ys := xs[..|xs| - 1];
      SumZero(ys);
      assert forall k :: 0 <= k < |ys| ==> ys[k] == xs[k];
    }
  }

  lemma DivUnique(x: int, k: int, q: int, r: int)
    requires k >= 1 && x == k * q + r && 0 <= r < k
    ensures x / k == q && x % k == r
  {
    var d := x / k - q;
    assert k * d == r - x % k by {
      assert k * (x / k) == k * q + k * d;
    }
    MulBound(k, d);
  }

  /** A multiple of k strictly between -k and k is zero. */
  lemma MulBound(k: int, d: int)
    requires k >= 1
    ensures d >= 1 ==> k * d >= k
    ensures d <= -1 ==> k * d <= -k
  {
  }
}
