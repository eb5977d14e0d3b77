/** Small types every other module shares. */
module Prelude {

  datatype Option<+T> = None | Some(value: T)

  datatype Result<+T, +E> = Ok(value: T) | Err(error: E)

  // Instants and spans of time are exact: float and microsecond rounding are not modelled.
  type Instant = real
  type Seconds = real

  function Min(a: int, b: int): int {
    if a <= b then a else b
  }

  lemma SubsetIsSmaller<T>(a: set<T>, b: set<T>)
    requires a <= b
    ensures |b - a| == |b| - |a|
    ensures |a| == |b| <==> a == b
  {
    assert b == a + (b - a);
  }

  lemma Scaled(w: int, m: int, n: int)
    requires w >= 0
    ensures m >= n ==> w * m >= w * n
  {
    if m >= n { assert w * (m - n) >= 0; }
  }

  lemma HeadAndTail<T>(s: seq<T>)
    requires s != []
    ensures s == [s[0]] + s[1..]
    ensures |s| == 1 ==> s == [s[0]]
  {
  }

  lemma Associative<T>(a: seq<T>, b: seq<T>, c: seq<T>)
    ensures a + b + c == a + (b + c)
  {
  }

  lemma Popped<T>(x: T, s: seq<T>)
    ensures ([x] + s)[1..] == s
  {
  }

  lemma Regrouped<T>(a: seq<T>, mark: T, b: seq<T>, rest: seq<T>)
    ensures a + ([mark] + b) + rest == a + ([mark] + (b + rest))
    ensures ([mark] + (b + rest))[1..] == b + rest
  {
  }
}
