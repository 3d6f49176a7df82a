/** Python's `sorted(xs, key=k)` and `list.sort(key=k)`: a stable sort, so the result orders
    elements by key and, among equal keys, by their original position. The model sorts the
    positions 0..n-1 under that order, which determines the result uniquely. */
module Sorting {

  ghost predicate StrictTotalOrder<K(!new)>(lt: (K, K) -> bool) {
    && (forall a :: !lt(a, a))
    && (forall a, b, c :: lt(a, b) && lt(b, c) ==> lt(a, c))
    && (forall a, b :: a != b ==> lt(a, b) || lt(b, a))
  }

  /** Position `i` comes before position `j`: a smaller key, or the same key earlier on. */
  predicate Before<K(==)>(keys: seq<K>, lt: (K, K) -> bool, i: nat, j: nat)
    requires i < |keys| && j < |keys|
  {
    lt(keys[i], keys[j]) || (keys[i] == keys[j] && i < j)
  }

  /** `s` lists positions of `keys` in strictly increasing `Before` order. */
  ghost predicate Ranked<K>(keys: seq<K>, lt: (K, K) -> bool, s: seq<nat>) {
    && (forall i :: 0 <= i < |s| ==> s[i] < |keys|)
    && (forall i, j :: 0 <= i < j < |s| ==> Before(keys, lt, s[i], s[j]))
  }

  lemma BeforeProperties<K(!new)>(keys: seq<K>, lt: (K, K) -> bool, i: nat, j: nat, k: nat)
    requires StrictTotalOrder(lt)
    requires i < |keys| && j < |keys| && k < |keys|
    ensures !Before(keys, lt, i, i)
    ensures Before(keys, lt, i, j) && Before(keys, lt, j, k) ==> Before(keys, lt, i, k)
    ensures i != j ==> Before(keys, lt, i, j) || Before(keys, lt, j, i)
  {
  }

  /** Insert position `x` into a ranked list of other positions. */
  function InsertIndex<K(==,!new)>(x: nat, s: seq<nat>, keys: seq<K>, lt: (K, K) -> bool): (r: seq<nat>)
    requires StrictTotalOrder(lt)
    requires x < |keys| && x !in s && Ranked(keys, lt, s)
    ensures |r| == |s| + 1 && Ranked(keys, lt, r)
    ensures forall y :: y in r <==> y == x || y in s
    decreases |s|
  {
    if s == [] then [x]
    else if Before(keys, lt, s[0], x) then
      var t := InsertIndex(x, s[1..], keys, lt);
      assert forall j :: 0 <= j < |t| ==> Before(keys, lt, s[0], t[j]) by {
        forall j | 0 <= j < |t| ensures Before(keys, lt, s[0], t[j]) {
          if t[j] != x {
            assert t[j] in s[1..];
            var m :| 0 <= m < |s| - 1 && s[1..][m] == t[j];
            assert s[m + 1] == t[j];
          }
        }
      }
      [s[0]] + t
    else
      BeforeProperties(keys, lt, x, s[0], s[0]);
      assert Before(keys, lt, x, s[0]);
      assert forall j :: 0 <= j < |s| ==> Before(keys, lt, x, s[j]) by {
        forall j | 0 <= j < |s| ensures Before(keys, lt, x, s[j]) {
          if j > 0 { BeforeProperties(keys, lt, x, s[0], s[j]); }
        }
      }
      [x] + s
  }

  function SortPrefix<K(==,!new)>(keys: seq<K>, lt: (K, K) -> bool, n: nat): (r: seq<nat>)
    requires StrictTotalOrder(lt) && n <= |keys|
    ensures |r| == n && Ranked(keys, lt, r)
    ensures forall y: nat :: y in r <==> y < n
  {
    if n == 0 then [] else InsertIndex(n - 1, SortPrefix(keys, lt, n - 1), keys, lt)
  }

  /** The order in which a stable sort by key puts the positions of `keys`: every position
      once, smaller keys first, equal keys in their original order. */
  function SortIndices<K(==,!new)>(keys: seq<K>, lt: (K, K) -> bool): (r: seq<nat>)
    requires StrictTotalOrder(lt)
    ensures |r| == |keys| && Ranked(keys, lt, r)
    ensures forall y: nat :: y in r <==> y < |keys|
  {
    SortPrefix(keys, lt, |keys|)
  }

  /** The elements of `s` in the order of `perm`. */
  function Permute<T>(s: seq<T>, perm: seq<nat>): (r: seq<T>)
    requires forall i :: 0 <= i < |perm| ==> perm[i] < |s|
    ensures |r| == |perm| && forall i :: 0 <= i < |perm| ==> r[i] == s[perm[i]]
  {
    seq(|perm|, i requires 0 <= i < |perm| => s[perm[i]])
  }

  /** Reordering by a permutation of the positions keeps exactly the same elements. */
  lemma PermuteSameElements<T>(s: seq<T>, perm: seq<nat>)
    requires |perm| == |s| && forall i :: 0 <= i < |perm| ==> perm[i] < |s|
    requires forall y: nat :: y in perm <==> y < |s|
    ensures forall c :: c in Permute(s, perm) <==> c in s
  {
    var r := Permute(s, perm);
    forall c ensures c in r <==> c in s {
      if c in s {
        var i :| 0 <= i < |s| && s[i] == c;
        assert i in perm;
        var j :| 0 <= j < |perm| && perm[j] == i;
        assert r[j] == c;
      }
    }
  }

  /** A ranked list of positions holds each position at most once. */
  lemma RankedDistinct<K(!new)>(keys: seq<K>, lt: (K, K) -> bool, s: seq<nat>)
    requires StrictTotalOrder(lt) && Ranked(keys, lt, s)
    ensures forall i, j :: 0 <= i < j < |s| ==> s[i] != s[j]
  {
    forall i, j | 0 <= i < j < |s| ensures s[i] != s[j] {
      BeforeProperties(keys, lt, s[i], s[j], s[j]);
    }
  }

  /** A permutation of the positions `0..n-1`: each once. */
  ghost predicate IsPermutation(perm: seq<nat>, n: nat) {
    && |perm| == n
    && (forall i :: 0 <= i < |perm| ==> perm[i] < n)
    && (forall y: nat :: y < n ==> y in perm)
    && (forall i, j :: 0 <= i < j < |perm| ==> perm[i] != perm[j])
  }

  /** Reordering by a permutation of the positions keeps the multiset of elements. */
  lemma {:induction false} PermuteMultiset<T>(s: seq<T>, perm: seq<nat>)
    requires IsPermutation(perm, |s|)
    ensures multiset(Permute(s, perm)) == multiset(s)
    decreases |s|
  {
    if s != [] {
      var n := |s| - 1;
      assert n in perm;
      var j :| 0 <= j < |perm| && perm[j] == n;
      var rest := DropLast(perm, j);
      PermuteMultiset(s[..n], rest);
      PermuteDrop(s, perm, j, rest);
      assert s == s[..n] + [s[n]];
    }
  }

  /** Taking the largest position out of a permutation leaves a permutation of the rest. */
  lemma DropLast(perm: seq<nat>, j: nat) returns (rest: seq<nat>)
    requires |perm| > 0 && IsPermutation(perm, |perm|) && j < |perm| && perm[j] == |perm| - 1
    ensures rest == perm[..j] + perm[j + 1..] && IsPermutation(rest, |perm| - 1)
  {
    var n := |perm| - 1;
    rest := perm[..j] + perm[j + 1..];
    assert forall i :: 0 <= i < |rest| ==> rest[i] == (if i < j then perm[i] else perm[i + 1]);
    forall y: nat | y < n ensures y in rest {
      assert y in perm;
      var k :| 0 <= k < |perm| && perm[k] == y;
      if k < j { assert rest[k] == y; } else { assert rest[k - 1] == y; }
    }
  }

  /** The permuted sequence is the last element plus the rest permuted without it. */
  lemma PermuteDrop<T>(s: seq<T>, perm: seq<nat>, j: nat, rest: seq<nat>)
    requires |s| > 0 && |perm| == |s| && j < |perm| && perm[j] == |s| - 1
    requires forall i :: 0 <= i < |perm| ==> perm[i] < |s|
    requires rest == perm[..j] + perm[j + 1..] && forall i :: 0 <= i < |rest| ==> rest[i] < |s| - 1
    ensures multiset(Permute(s, perm)) == multiset(Permute(s[..|s| - 1], rest)) + multiset{s[|s| - 1]}
  {
    var r := Permute(s, perm);
    PermuteWithout(s, perm, j, rest);
    MultisetWithout(r, j);
  }

  /** Leaving out position `j` of the permuted sequence is permuting by `perm` without `j`. */
  lemma PermuteWithout<T>(s: seq<T>, perm: seq<nat>, j: nat, rest: seq<nat>)
    requires |s| > 0 && |perm| == |s| && j < |perm|
    requires forall i :: 0 <= i < |perm| ==> perm[i] < |s|
    requires rest == perm[..j] + perm[j + 1..] && forall i :: 0 <= i < |rest| ==> rest[i] < |s| - 1
    ensures Permute(s, perm)[..j] + Permute(s, perm)[j + 1..] == Permute(s[..|s| - 1], rest)
  {
    var r, q := Permute(s, perm), Permute(s[..|s| - 1], rest);
    var d := r[..j] + r[j + 1..];
    assert |d| == |q|;
    forall i | 0 <= i < |q| ensures q[i] == d[i] {
      if i < j {
        assert rest[i] == perm[i] && d[i] == r[i];
      } else {
        assert rest[i] == perm[i + 1] && d[i] == r[i + 1];
      }
    }
  }

  /** A sequence's multiset is its element at `j` plus the multiset of the others. */
  lemma MultisetWithout<T>(r: seq<T>, j: nat)
    requires j < |r|
    ensures multiset(r) == multiset(r[..j] + r[j + 1..]) + multiset{r[j]}
  {
    assert r == r[..j] + [r[j]] + r[j + 1..];
  }



  /** Two sequences strictly increasing under the same order, with the same elements, are equal. */
  lemma {:induction false} StrictlyIncreasingUnique<T>(a: seq<T>, b: seq<T>, lt: (T, T) -> bool)
    requires forall i, j :: 0 <= i < j < |a| ==> lt(a[i], a[j])
    requires forall i, j :: 0 <= i < j < |b| ==> lt(b[i], b[j])
    requires forall x :: x in a <==> x in b
    requires forall x :: x in a ==> !lt(x, x)
    requires forall x, y, z :: x in a && y in a && z in a && lt(x, y) && lt(y, z) ==> lt(x, z)
    ensures a == b
    decreases |a|
  {
    assert b != [] ==> b[0] in a;
    if a != [] {
      assert a[0] in b;
      var a0, b0 := a[0], b[0];
      var k :| 0 <= k < |b| && b[k] == a0;
      var m :| 0 <= m < |a| && a[m] == b0;
      assert k > 0 ==> lt(b0, a0);
      assert m > 0 ==> lt(a0, b0);
      assert k == 0;
      forall x ensures x in a[1..] <==> x in b[1..] {
        if x in a[1..] {
          var i :| 1 <= i < |a| && a[i] == x;
          assert lt(a[0], x);
          assert x in b;
        }
        if x in b[1..] {
          var i :| 1 <= i < |b| && b[i] == x;
          assert lt(b[0], x);
          assert x in a;
        }
      }
      StrictlyIncreasingUnique(a[1..], b[1..], lt);
      assert a == [a[0]] + a[1..] && b == [b[0]] + b[1..];
    }
  }

  /** A stable sort is determined by its keys: any ranked listing of all positions is it. */
  lemma RankedIsSortIndices<K(!new)>(keys: seq<K>, lt: (K, K) -> bool, s: seq<nat>)
    requires StrictTotalOrder(lt) && Ranked(keys, lt, s)
    requires forall y: nat :: y in s <==> y < |keys|
    ensures s == SortIndices(keys, lt)
  {
    var r := SortIndices(keys, lt);
    var beforeOn := (i: nat, j: nat) => i < |keys| && j < |keys| && Before(keys, lt, i, j);
    forall x, y, z | x in s && y in s && z in s && beforeOn(x, y) && beforeOn(y, z)
      ensures beforeOn(x, z)
    {
      BeforeProperties(keys, lt, x, y, z);
    }
    forall x | x in s ensures !beforeOn(x, x) {
      BeforeProperties(keys, lt, x, x, x);
    }
    StrictlyIncreasingUnique(s, r, beforeOn);
  }

  function Range(n: nat): (r: seq<nat>)
    ensures |r| == n && forall i :: 0 <= i < n ==> r[i] == i
  {
    seq(n, i => i)
  }

  /** Keys already in increasing order are left in place. */
  lemma SortIndicesOfIncreasing<K(!new)>(keys: seq<K>, lt: (K, K) -> bool)
    requires StrictTotalOrder(lt)
    requires forall i, j :: 0 <= i < j < |keys| ==> lt(keys[i], keys[j])
    ensures SortIndices(keys, lt) == Range(|keys|)
  {
    var id := Range(|keys|);
    assert forall y: nat :: y in id <==> y < |keys| by {
      forall y: nat ensures y in id <==> y < |keys| {
        if y < |keys| { assert id[y] == y; }
      }
    }
    RankedIsSortIndices(keys, lt, id);
  }
}
