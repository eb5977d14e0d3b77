/** The order in which an insertion-ordered dictionary keeps its keys. */
module Listing {

  /** Adding a key: one already there keeps its place. */
  function Put<T(==)>(keys: seq<T>, k: T): seq<T> {
    if k in keys then keys else keys + [k]
  }

  /** The keys after putting every element of s in turn. */
  function Distinct<T(==)>(s: seq<T>): seq<T>
    decreases |s|
  {
    if s == [] then [] else Put(Distinct(s[..|s| - 1]), s[|s| - 1])
  }

  /** Where x is first met. */
  function FirstIndex<T(==)>(s: seq<T>, x: T): (i: nat)
    requires x in s
    ensures i < |s| && s[i] == x
    ensures forall j | 0 <= j < i :: s[j] != x
  {
    if s[0] == x then 0 else 1 + FirstIndex(s[1..], x)
  }

  /** `keys` names the elements of s, each once, in the order they are first met. */
  ghost predicate FirstMetOrder<T>(keys: seq<T>, s: seq<T>) {
    && (forall x | x in keys :: x in s)
    && (forall x | x in s :: x in keys)
    && (forall i, j | 0 <= i < j < |keys| :: FirstIndex(s, keys[i]) < FirstIndex(s, keys[j]))
  }

  lemma FirstIndexIsFirst<T>(s: seq<T>, x: T, i: nat)
    requires i < |s| && s[i] == x && forall j | 0 <= j < i :: s[j] != x
    ensures FirstIndex(s, x) == i
  {
  }

  lemma FirstIndexOfLonger<T>(s: seq<T>, y: T, x: T)
    requires x in s
    ensures FirstIndex(s + [y], x) == FirstIndex(s, x)
  {
    FirstIndexIsFirst(s + [y], x, FirstIndex(s, x));
  }

  lemma {:induction false} DistinctIsFirstMet<T>(s: seq<T>)
    ensures FirstMetOrder(Distinct(s), s)
    decreases |s|
  {
    if s != [] {
      var n := |s| - 1;
      DistinctIsFirstMet(s[..n]);
      PutKeepsOrder(Distinct(s[..n]), s[..n], s[n]);
      assert s[..n] + [s[n]] == s;
    }
  }

  lemma PutKeepsOrder<T>(keys: seq<T>, s: seq<T>, y: T)
    requires FirstMetOrder(keys, s)
    ensures FirstMetOrder(Put(keys, y), s + [y])
  {
    var after := Put(keys, y);
    forall i, j | 0 <= i < j < |after| ensures FirstIndex(s + [y], after[i]) < FirstIndex(s + [y], after[j]) {
      assert keys[i] in keys;
      FirstIndexOfLonger(s, y, keys[i]);
      if j < |keys| {
        assert keys[j] in keys;
        FirstIndexOfLonger(s, y, keys[j]);
      } else {
        FirstIndexIsFirst(s + [y], y, |s|);
      }
    }
  }

  lemma OrderHasNoRepeats<T>(keys: seq<T>, s: seq<T>)
    requires FirstMetOrder(keys, s)
    ensures forall i, j | 0 <= i < j < |keys| :: keys[i] != keys[j]
  {
  }

  lemma {:induction false} OrderedIsUnique<T>(a: seq<T>, b: seq<T>, s: seq<T>)
    requires forall x | x in a :: x in s && x in b
    requires forall x | x in b :: x in s && x in a
    requires forall i, j | 0 <= i < j < |a| :: FirstIndex(s, a[i]) < FirstIndex(s, a[j])
    requires forall i, j | 0 <= i < j < |b| :: FirstIndex(s, b[i]) < FirstIndex(s, b[j])
    ensures a == b
    decreases |a|
  {
    if a == [] {
      assert forall i | 0 <= i < |b| :: b[i] in b;
    } else {
      assert a[0] in b && b != [];
      assert b[0] in a;
      assert a[0] == b[0];
      forall x | x in a[1..] ensures x in b[1..] { assert x in b; }
      forall x | x in b[1..] ensures x in a[1..] { assert x in a; }
      OrderedIsUnique(a[1..], b[1..], s);
    }
  }

  /** Being the first-met listing of s pins a sequence down completely. */
  lemma FirstMetIsUnique<T>(a: seq<T>, b: seq<T>, s: seq<T>)
    requires FirstMetOrder(a, s) && FirstMetOrder(b, s)
    ensures a == b
  {
    OrderedIsUnique(a, b, s);
  }
}
