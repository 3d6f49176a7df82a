/** The spatial columns of a timeseries table: the header names that start with `p`, ordered by
    the integer after the `p` (`p_cols.sort(key=lambda c: int(c[1:]))`). Both the metric
    computation and the profile reader select and order them this way. */
module Columns {
  import opened Wrappers
  import Text
  import Json
  import Sorting

  /** `[c for c in names if c.startswith('p')]`. */
  function SpatialNames(names: seq<string>): (r: seq<string>)
    ensures |r| <= |names|
    ensures forall c :: c in r <==> c in names && Text.StartsWith(c, "p")
  {
    if names == [] then []
    else
      var rest := SpatialNames(names[1..]);
      assert forall c :: c in names <==> c == names[0] || c in names[1..];
      if Text.StartsWith(names[0], "p") then [names[0]] + rest else rest
  }

  /** `c[1:]`. */
  function Suffix(c: string): string {
    if c == [] then [] else c[1..]
  }

  /** The integer keys `int(c[1:])` of the given names, or `None` when one of them is not an
      integer (the ValueError). */
  function SuffixKeys(cols: seq<string>, p: Json.Parsers): (r: Option<seq<int>>)
    ensures r.Some? <==> forall i :: 0 <= i < |cols| ==> p.parseInt(Suffix(cols[i])).Some?
    ensures r.Some? ==> |r.value| == |cols|
    ensures r.Some? ==> forall i :: 0 <= i < |cols| ==> r.value[i] == p.parseInt(Suffix(cols[i])).value
  {
    if cols == [] then Some([])
    else
      match p.parseInt(Suffix(cols[0]))
      case None => None
      case Some(k) =>
        match SuffixKeys(cols[1..], p)
        case None => None
        case Some(ks) => Some([k] + ks)
  }

  function IntLess(a: int, b: int): bool { a < b }

  lemma IntLessIsStrictTotal()
    ensures Sorting.StrictTotalOrder(IntLess)
  {
  }

  /** The positions of the names in sorted order: every position once, suffixes never
      decreasing, and names with equal suffixes in their original order (`list.sort` is
      stable). */
  function SuffixOrder(keys: seq<int>): (perm: seq<nat>)
    ensures Sorting.IsPermutation(perm, |keys|)
    ensures forall i, j :: 0 <= i < j < |perm| ==> keys[perm[i]] <= keys[perm[j]]
    ensures forall i, j :: 0 <= i < j < |perm| && keys[perm[i]] == keys[perm[j]] ==> perm[i] < perm[j]
  {
    IntLessIsStrictTotal();
    var perm := Sorting.SortIndices(keys, IntLess);
    Sorting.RankedDistinct(keys, IntLess, perm);
    assert forall i, j :: 0 <= i < j < |perm| ==> Sorting.Before(keys, IntLess, perm[i], perm[j]);
    perm
  }

  /** `p_cols.sort(key=lambda c: int(c[1:]))`: the same names, in increasing suffix order,
      names with equal suffixes in their original order; a suffix that is not an integer
      raises ValueError. */
  function OrderBySuffix(cols: seq<string>, p: Json.Parsers): (r: Result<seq<string>, Exception>)
    ensures r.Failure? <==> exists i :: 0 <= i < |cols| && p.parseInt(Suffix(cols[i])).None?
    ensures r.Failure? ==> r.error == ValueError
    ensures r.Success? ==> |r.value| == |cols| && (forall c :: c in r.value <==> c in cols)
    ensures r.Success? ==> multiset(r.value) == multiset(cols)
    ensures r.Success? ==> forall c :: c in r.value ==> p.parseInt(Suffix(c)).Some?
    ensures r.Success? ==> forall i, j :: 0 <= i < j < |cols| ==>
      p.parseInt(Suffix(r.value[i])).value <= p.parseInt(Suffix(r.value[j])).value
    ensures r.Success? ==> var perm := SuffixOrder(SuffixKeys(cols, p).value);
      && (forall i :: 0 <= i < |cols| ==> r.value[i] == cols[perm[i]])
      && (forall i, j :: 0 <= i < j < |cols| && p.parseInt(Suffix(r.value[i])) == p.parseInt(Suffix(r.value[j])) ==>
            perm[i] < perm[j])
  {
    match SuffixKeys(cols, p)
    case None => Failure(ValueError)
    case Some(keys) =>
      var perm := SuffixOrder(keys);
      var r := Sorting.Permute(cols, perm);
      Sorting.PermuteSameElements(cols, perm);
      Sorting.PermuteMultiset(cols, perm);
      Success(r)
  }

  /** The header the sweep writes for a profile of `m` points: `time, p0, ..., p{m-1}`. */
  function PName(i: nat): string {
    "p" + Text.NatToString(i)
  }

  function PNames(m: nat): (r: seq<string>)
    ensures |r| == m && forall i :: 0 <= i < m ==> r[i] == PName(i)
  {
    seq(m, i requires 0 <= i => PName(i))
  }

  function Header(m: nat): seq<string> {
    ["time"] + PNames(m)
  }

  /** Different points get different column names. */
  lemma PNameInjective(a: nat, b: nat)
    ensures PName(a) == PName(b) ==> a == b
  {
    if PName(a) == PName(b) {
      assert PName(a)[1..] == Text.NatToString(a);
      assert PName(b)[1..] == Text.NatToString(b);
      Text.NatToStringInjective(a, b);
    }
  }

  /** The header names no column twice. */
  lemma HeaderDistinct(m: nat)
    ensures forall i, j :: 0 <= i < j < |Header(m)| ==> Header(m)[i] != Header(m)[j]
  {
    var h := Header(m);
    forall i, j | 0 <= i < j < |h| ensures h[i] != h[j] {
      if i == 0 {
        assert h[i][0] == 't' && h[j][0] == 'p';
      } else {
        PNameInjective(i - 1, j - 1);
      }
    }
  }

  /** The supplied `int()` reads decimal numerals as Python does. */
  ghost predicate ReadsDecimal(p: Json.Parsers) {
    forall n: nat :: p.parseInt(Text.NatToString(n)) == Some(n)
  }

  /** Selecting the spatial columns of the header the sweep writes gives `p0, ..., p{m-1}`. */
  lemma SpatialColumnsOfHeader(m: nat)
    ensures SpatialNames(Header(m)) == PNames(m)
  {
    var ps := PNames(m);
    assert Header(m)[1..] == ps;
    assert "time"[0] != "p"[0];
    SpatialNamesAll(ps);
  }

  /** The suffix keys of `p0, ..., p{m-1}` are `0, ..., m-1`. */
  lemma PNamesKeys(m: nat, p: Json.Parsers)
    requires ReadsDecimal(p)
    ensures SuffixKeys(PNames(m), p).Some?
    ensures forall i :: 0 <= i < m ==> SuffixKeys(PNames(m), p).value[i] == i
  {
    var ps := PNames(m);
    forall i | 0 <= i < m ensures p.parseInt(Suffix(ps[i])) == Some(i) {
      assert Suffix(ps[i]) == Text.NatToString(i);
    }
  }

  /** Ordering `p0, ..., p{m-1}` by suffix leaves them in place. */
  lemma PNamesInOrder(m: nat, p: Json.Parsers)
    requires ReadsDecimal(p)
    ensures OrderBySuffix(PNames(m), p) == Success(PNames(m))
  {
    var ps := PNames(m);
    PNamesKeys(m, p);
    var keys := SuffixKeys(ps, p).value;
    IntLessIsStrictTotal();
    Sorting.SortIndicesOfIncreasing(keys, IntLess);
    var perm := Sorting.SortIndices(keys, IntLess);
    assert Sorting.Permute(ps, perm) == ps;
  }

  /** Names that all start with `p` are all kept, in order. */
  lemma {:induction false} SpatialNamesAll(names: seq<string>)
    requires forall i :: 0 <= i < |names| ==> Text.StartsWith(names[i], "p")
    ensures SpatialNames(names) == names
  {
    if names != [] {
      SpatialNamesAll(names[1..]);
    }
  }
}
