/** Dense complex matrices as sequences of rows, and the two properties the
    model states about them: being Hermitian and having a given trace. */
module Matrices {
  import opened ComplexNumbers

  type Matrix = seq<seq<Complex>>

  /** An n-by-n matrix. */
  ghost predicate IsSquare(m: Matrix)
  {
    forall i :: 0 <= i < |m| ==> |m[i]| == |m|
  }

  /** m equals its conjugate transpose: m[i][j] == conj(m[j][i]). */
  ghost predicate IsHermitian(m: Matrix)
  {
    IsSquare(m) &&
    forall i, j :: 0 <= i < |m| && 0 <= j < |m| ==> m[i][j] == Conj(m[j][i])
  }

  /** The sum of the first k diagonal entries. */
  function DiagonalSum(m: Matrix, k: nat): Complex
    requires IsSquare(m) && k <= |m|
  {
    if k == 0 then Zero else Add(DiagonalSum(m, k - 1), m[k - 1][k - 1])
  }

  /** The trace: the sum of all diagonal entries. */
  function Trace(m: Matrix): Complex
    requires IsSquare(m)
  {
    DiagonalSum(m, |m|)
  }

  /** The contents of a two-dimensional array, row by row. */
  ghost function Elements(a: array2<Complex>): (m: Matrix)
    reads a
    ensures |m| == a.Length0
    ensures forall i :: 0 <= i < |m| ==> |m[i]| == a.Length1
  {
    seq(a.Length0, i requires 0 <= i < a.Length0 reads a =>
      seq(a.Length1, j requires 0 <= j < a.Length1 reads a => a[i, j]))
  }

  /** An array equals a matrix when their cells agree one by one. */
  lemma ElementsEqual(a: array2<Complex>, m: Matrix)
    requires |m| == a.Length0 && forall i :: 0 <= i < |m| ==> |m[i]| == a.Length1
    requires forall i, j :: 0 <= i < a.Length0 && 0 <= j < a.Length1 ==> a[i, j] == m[i][j]
    ensures Elements(a) == m
  {
    var e := Elements(a);
    forall i | 0 <= i < |m| ensures e[i] == m[i] {
      assert forall j :: 0 <= j < |m[i]| ==> e[i][j] == m[i][j];
    }
  }
}
