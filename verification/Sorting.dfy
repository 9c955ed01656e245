/**
 Stands in for Go's `sort.Slice` with a `less` that compares one numeric field.
 Callers see only the contract below, which promises an ordered permutation and
 nothing about stability, so everything proved about them holds for every
 correct sorting algorithm.
 */
module Sorting {

  ghost predicate OrderedBy<T>(s: seq<T>, key: T -> real) {
    forall i, j :: 0 <= i < j < |s| ==> key(s[i]) <= key(s[j])
  }

  method SortSlice<T>(s: seq<T>, key: T -> real) returns (r: seq<T>)
    ensures OrderedBy(r, key) && multiset(r) == multiset(s)
  {
    r := [];
    for i := 0 to |s|
      invariant OrderedBy(r, key) && multiset(r) == multiset(s[..i])
    {
      r := Insert(r, s[i], key);
      assert s[..i + 1] == s[..i] + [s[i]];
    }
    assert s[..|s|] == s;
  }

  lemma InsertKeepsElements<T>(s: seq<T>, x: T, k: nat)
    requires k <= |s|
    ensures multiset(s[..k] + [x] + s[k..]) == multiset(s) + multiset{x}
  {
    assert s == s[..k] + s[k..];
  }

  lemma InsertKeepsOrder<T>(s: seq<T>, x: T, k: nat, key: T -> real)
    requires k <= |s| && OrderedBy(s, key)
    requires k > 0 ==> key(s[k - 1]) <= key(x)
    requires forall i :: k <= i < |s| ==> key(x) <= key(s[i])
    ensures OrderedBy(s[..k] + [x] + s[k..], key)
  {
    var r := s[..k] + [x] + s[k..];
    forall i, j | 0 <= i < j < |r| ensures key(r[i]) <= key(r[j]) {
      var a := if i < k then s[i] else if i == k then x else s[i - 1];
      var b := if j < k then s[j] else if j == k then x else s[j - 1];
      assert r[i] == a && r[j] == b;
      if i < k <= j {
        assert key(s[i]) <= key(s[k - 1]);
      }
    }
  }

  /** Put one element into an ordered sequence. */
  method Insert<T>(s: seq<T>, x: T, key: T -> real) returns (r: seq<T>)
    requires OrderedBy(s, key)
    ensures OrderedBy(r, key) && multiset(r) == multiset(s) + multiset{x}
  {
    var k := |s|;
    while k > 0 && key(x) < key(s[k - 1])
      invariant 0 <= k <= |s|
      invariant forall i :: k <= i < |s| ==> key(x) < key(s[i])
    {
      k := k - 1;
    }
    r := s[..k] + [x] + s[k..];
    InsertKeepsElements(s, x, k);
    InsertKeepsOrder(s, x, k, key);
  }
}
