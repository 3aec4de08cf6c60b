/** Shared data model of the bitmap pipeline: row-major grids, the flattening
    used both for the global mean and for serialisation, and sums of real samples. */
module Grids {

  datatype Option<T> = None | Some(value: T)

  datatype Result<T, E> = Ok(value: T) | Err(error: E)

  /** A grid of `height` rows that each hold exactly `width` cells. */
  predicate IsRectangular<T>(g: seq<seq<T>>, width: nat) {
    forall i :: 0 <= i < |g| ==> |g[i]| == width
  }

  /** Two grids with the same number of rows and the same length row by row. */
  predicate SameShape<T, U>(a: seq<seq<T>>, b: seq<seq<U>>) {
    |a| == |b| && forall i :: 0 <= i < |a| ==> |a[i]| == |b[i]|
  }

  /** Number of cells in a (possibly ragged) grid. */
  function CellCount<T>(g: seq<seq<T>>): nat {
    if g == [] then 0 else |g[0]| + CellCount(g[1..])
  }

  /** Row-major concatenation of the rows, as `itertools.chain(*grid)` produces it. */
  function Flatten<T>(g: seq<seq<T>>): (r: seq<T>)
    ensures |r| == CellCount(g)
  {
    if g == [] then [] else g[0] + Flatten(g[1..])
  }

  /** Every cell of the grid occurs in the flattened sequence, and nothing else does. */
  lemma {:induction false} FlattenMember<T>(g: seq<seq<T>>, x: T)
    ensures x in Flatten(g) <==> exists i, j :: 0 <= i < |g| && 0 <= j < |g[i]| && g[i][j] == x
  {
    if g != [] {
      FlattenMember(g[1..], x);
      assert Flatten(g) == g[0] + Flatten(g[1..]);
      if x in Flatten(g) {
        if x !in g[0] {
          var i, j :| 0 <= i < |g[1..]| && 0 <= j < |g[1..][i]| && g[1..][i][j] == x;
          assert g[i + 1][j] == x;
        } else {
          var j :| 0 <= j < |g[0]| && g[0][j] == x;
          assert g[0][j] == x;
        }
      }
      if exists i, j :: 0 <= i < |g| && 0 <= j < |g[i]| && g[i][j] == x {
        var i, j :| 0 <= i < |g| && 0 <= j < |g[i]| && g[i][j] == x;
        if i > 0 {
          assert g[1..][i - 1][j] == x;
        }
      }
    }
  }

  /** Cell (i, j) of a grid of width `w` sits at position i * w + j of the flattened sequence. */
  lemma {:induction false} FlattenRowMajor<T>(g: seq<seq<T>>, w: nat, i: nat, j: nat)
    requires IsRectangular(g, w)
    requires i < |g| && j < w
    ensures |Flatten(g)| == |g| * w
    ensures i * w + j < |Flatten(g)| && Flatten(g)[i * w + j] == g[i][j]
  {
    FlattenLength(g, w);
    if i > 0 {
      FlattenRowMajor(g[1..], w, i - 1, j);
      assert (i - 1) * w + j + w == i * w + j;
      assert Flatten(g) == g[0] + Flatten(g[1..]);
    }
  }

  /** A rectangular grid of width `w` has |g| * w cells. */
  lemma {:induction false} FlattenLength<T>(g: seq<seq<T>>, w: nat)
    requires IsRectangular(g, w)
    ensures |Flatten(g)| == |g| * w
  {
    if g != [] {
      FlattenLength(g[1..], w);
      assert (|g| - 1) * w + w == |g| * w;
    }
  }

  /** Sum of real samples. */
  function Sum(s: seq<real>): real {
    if s == [] then 0.0 else s[0] + Sum(s[1..])
  }

  /** Arithmetic mean of a sequence of samples; an empty sequence has no sample to compare, so its value is immaterial. */
  function MeanOf(s: seq<real>): real {
    if |s| == 0 then 0.0 else Sum(s) / (|s| as real)
  }

  /** Arithmetic mean of every cell of the grid. */
  function Mean(g: seq<seq<real>>): real {
    MeanOf(Flatten(g))
  }

  /** The mean of samples that all equal c is c. */
  lemma MeanOfConstant(s: seq<real>, c: real)
    requires |s| > 0
    requires forall k :: 0 <= k < |s| ==> s[k] == c
    ensures MeanOf(s) == c
  {
    var n := |s| as real;
    SumConstant(s, c);
    assert Sum(s) / n == (n * c) / n;
  }

  /** Some sample of a non-empty sequence lies at or below its mean. */
  lemma MeanNotBelowAll(s: seq<real>) returns (k: nat)
    requires |s| > 0
    ensures k < |s| && s[k] <= MeanOf(s)
  {
    var m := MeanOf(s);
    var n := |s| as real;
    assert Sum(s) == m * n;
    if forall k :: 0 <= k < |s| ==> s[k] > m {
      SumAbove(s, m);
      assert false;
    }
    k :| 0 <= k < |s| && s[k] <= m;
  }

  /** A sequence holding two different samples has a sample strictly above its mean. */
  lemma MeanNotAboveAll(s: seq<real>, a: nat, b: nat) returns (k: nat)
    requires a < |s| && b < |s| && s[a] != s[b]
    ensures k < |s| && s[k] > MeanOf(s)
  {
    var m := MeanOf(s);
    var n := |s| as real;
    assert Sum(s) == m * n;
    if forall k :: 0 <= k < |s| ==> s[k] <= m {
      var lo := if s[a] < s[b] then a else b;
      SumBelow(s, m, lo);
      assert false;
    }
    k :| 0 <= k < |s| && s[k] > m;
  }

  /** A sequence whose samples all equal c sums to |s| * c. */
  lemma {:induction false} SumConstant(s: seq<real>, c: real)
    requires forall k :: 0 <= k < |s| ==> s[k] == c
    ensures Sum(s) == (|s| as real) * c
  {
    if s != [] {
      SumConstant(s[1..], c);
    }
  }

  /** A non-empty sequence strictly above m sums to strictly more than |s| * m. */
  lemma {:induction false} SumAbove(s: seq<real>, m: real)
    requires |s| > 0
    requires forall k :: 0 <= k < |s| ==> s[k] > m
    ensures Sum(s) > (|s| as real) * m
  {
    if |s| > 1 {
      SumAbove(s[1..], m);
    }
  }

  /** A sequence at or below m, with one sample strictly below, sums to strictly less than |s| * m. */
  lemma {:induction false} SumBelow(s: seq<real>, m: real, k0: nat)
    requires k0 < |s|
    requires forall k :: 0 <= k < |s| ==> s[k] <= m
    requires s[k0] < m
    ensures Sum(s) < (|s| as real) * m
  {
    if k0 == 0 {
      SumAtMost(s[1..], m);
    } else {
      SumBelow(s[1..], m, k0 - 1);
    }
  }

  /** A sequence at or below m sums to at most |s| * m. */
  lemma {:induction false} SumAtMost(s: seq<real>, m: real)
    requires forall k :: 0 <= k < |s| ==> s[k] <= m
    ensures Sum(s) <= (|s| as real) * m
  {
    if s != [] {
      SumAtMost(s[1..], m);
    }
  }
}
