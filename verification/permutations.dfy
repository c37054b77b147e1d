/** Facts about sequences that are rearrangements of one another. */
module Permutations {

  /** No two positions of `s` share a key. */
  ghost predicate DistinctBy<T, K>(s: seq<T>, key: T -> K)
  {
    forall i, j :: 0 <= i < j < |s| ==> key(s[i]) != key(s[j])
  }

  /** Rearranging a sequence keeps its keys distinct. */
  lemma {:induction false} DistinctByPermutation<T, K>(a: seq<T>, b: seq<T>, key: T -> K)
    requires multiset(a) == multiset(b)
    requires DistinctBy(a, key)
    ensures DistinctBy(b, key)
    decreases |a|
  {
    if |a| == 0 {
      assert |multiset(b)| == 0;
    } else {
      assert a[0] in multiset(a);
      var k :| 0 <= k < |b| && b[k] == a[0];
      var b' := b[..k] + b[k + 1..];
      RemoveMatching(a, b, k);
      DistinctByPermutation(a[1..], b', key);
      ReinsertDistinct(a, b, k, key);
    }
  }

  lemma RemoveMatching<T>(a: seq<T>, b: seq<T>, k: nat)
    requires multiset(a) == multiset(b)
    requires |a| > 0 && k < |b| && b[k] == a[0]
    ensures multiset(b[..k] + b[k + 1..]) == multiset(a[1..])
  {
    assert b == b[..k] + [b[k]] + b[k + 1..];
    assert a == [a[0]] + a[1..];
    assert multiset(b) == multiset(b[..k]) + multiset{b[k]} + multiset(b[k + 1..]);
    assert multiset(a) == multiset{a[0]} + multiset(a[1..]);
    assert multiset(b[..k] + b[k + 1..]) == multiset(b[..k]) + multiset(b[k + 1..]);
    assert multiset(b[..k]) + multiset(b[k + 1..]) == multiset(b) - multiset{b[k]};
    assert multiset(a[1..]) == multiset(a) - multiset{a[0]};
  }

  lemma ReinsertDistinct<T, K>(a: seq<T>, b: seq<T>, k: nat, key: T -> K)
    requires |a| > 0 && k < |b| && b[k] == a[0]
    requires multiset(b[..k] + b[k + 1..]) == multiset(a[1..])
    requires DistinctBy(a, key)
    requires DistinctBy(b[..k] + b[k + 1..], key)
    ensures DistinctBy(b, key)
  {
    var b' := b[..k] + b[k + 1..];
    forall i, j | 0 <= i < j < |b|
      ensures key(b[i]) != key(b[j])
    {
      if i == k {
        OtherKeyDiffers(a, b', j - 1, key);
        assert b[j] == b'[j - 1];
      } else if j == k {
        OtherKeyDiffers(a, b', i, key);
        assert b[i] == b'[i];
      } else {
        var i' := if i < k then i else i - 1;
        var j' := if j < k then j else j - 1;
        assert b[i] == b'[i'] && b[j] == b'[j'] && i' < j';
      }
    }
  }

  lemma OtherKeyDiffers<T, K>(a: seq<T>, rest: seq<T>, m: int, key: T -> K)
    requires |a| > 0 && multiset(rest) == multiset(a[1..])
    requires DistinctBy(a, key)
    requires 0 <= m < |rest|
    ensures key(rest[m]) != key(a[0])
  {
    assert rest[m] in multiset(rest);
    assert rest[m] in multiset(a[1..]);
    var n :| 0 <= n < |a[1..]| && a[1..][n] == rest[m];
    assert a[n + 1] == rest[m];
  }
}
