/** The index-structured part of the `System` class of anderson_decoherence.py:
    the tridiagonal Hamiltonian of a disordered tight-binding chain, the
    site-index vector, the pure-state density matrix, the time step and the
    banded decay (Trotter) kernel. Random draws and `exp` are parameters. */
module AndersonDecoherence {
  import opened ComplexNumbers
  import opened Matrices
  import Cardinality

  /** The Python exceptions the modelled operations can raise. */
  datatype Error = IndexError | ZeroDivisionError

  datatype Result<T> = Ok(value: T) | Err(error: Error)

  /** A `System` object. Its constructor stores three fields and no method
      changes them afterwards, so the object is a value here. `disorder` is
      stored but no computation reads it. */
  datatype System = System(sites: nat, disorder: real, offDiagsMagnitude: Complex)

  /** `System()` with the constructor's default arguments. */
  const DefaultSystem: System := System(200, 1.0, One)

  // ---------------------------------------------------------------------------
  // site_vector

  /** Exact real division undoes multiplication. */
  lemma MultiplyThenDivide(x: real, d: real)
    requires d != 0.0
    ensures x * d / d == x
  {
    var q := x * d / d;
    assert q * d == x * d;
    assert (q - x) * d == 0.0;
  }

  lemma ScaleQuotient(k: real, x: real, d: real)
    requires d != 0.0
    ensures k * (x / d) == k * x / d
  {
    var q := x / d;
    assert q * d == x;
    assert (k * q) * d == k * x;
    MultiplyThenDivide(k * q, d);
  }

  /** The k-th point `np.linspace` produces, start + k * step, except that
      the last point is stop itself. */
  function LinspacePoint(start: real, stop: real, num: nat, k: nat): real
    requires k < num
  {
    if num == 1 then start
    else if k == num - 1 then stop
    else start + k as real * ((stop - start) / (num - 1) as real)
  }

  /** Every point lies on the straight line through start and stop. */
  lemma LinspacePointOnLine(start: real, stop: real, num: nat, k: nat)
    requires 1 < num && k < num
    ensures LinspacePoint(start, stop, num, k) == start + k as real * (stop - start) / (num - 1) as real
  {
    var d := (num - 1) as real;
    if k == num - 1 {
      assert d * (stop - start) == (stop - start) * d;
      MultiplyThenDivide(stop - start, d);
    } else {
      ScaleQuotient(k as real, stop - start, d);
    }
  }

  /** `np.linspace(start, stop, num)` on exact reals: num evenly spaced points,
      the first being start and, when num > 1, the last being stop. */
  function Linspace(start: real, stop: real, num: nat): (xs: seq<real>)
    ensures |xs| == num
    ensures forall k :: 0 <= k < num ==>
      xs[k] == if num == 1 then start else start + k as real * (stop - start) / (num - 1) as real
  {
    var xs := seq(num, k requires 0 <= k < num => LinspacePoint(start, stop, num, k));
    assert forall k :: 0 <= k < num && 1 < num ==>
      xs[k] == start + k as real * (stop - start) / (num - 1) as real by {
      forall k | 0 <= k < num && 1 < num
        ensures xs[k] == start + k as real * (stop - start) / (num - 1) as real
      {
        LinspacePointOnLine(start, stop, num, k);
      }
    }
    xs
  }

  /** `site_vector`: `np.linspace(0, sites - 1, sites, dtype=int)`, the integer
      dtype rounding each point down. It is the index range 0 .. sites - 1. */
  function SiteVector(sys: System): (v: seq<int>)
    ensures |v| == sys.sites
    ensures forall k :: 0 <= k < |v| ==> v[k] == k
  {
    var n := sys.sites;
    var xs := Linspace(0.0, (n - 1) as real, n);
    assert forall k :: 0 <= k < n ==> xs[k] == k as real by {
      forall k | 0 <= k < n ensures xs[k] == k as real {
        if n > 1 {
          MultiplyThenDivide(k as real, (n - 1) as real);
          assert (n - 1) as real - 0.0 == (n - 1) as real;
        }
      }
    }
    seq(n, k requires 0 <= k < n => xs[k].Floor)
  }

  /** The default system's site vector runs over the 200 site indices 0 .. 199. */
  lemma DefaultSiteVector()
    ensures SiteVector(DefaultSystem) == seq(200, k => k)
  {
  }

  // ---------------------------------------------------------------------------
  // delta_t

  const DefaultTotal: real := 3.0
  const DefaultNumSteps: int := 30

  /** `delta_t(total, num_steps)`: the true division total / num_steps, which
      raises ZeroDivisionError when num_steps is 0. */
  function DeltaT(total: real, numSteps: int): (r: Result<real>)
    ensures r.Ok? <==> numSteps != 0
    ensures r.Err? ==> r.error == ZeroDivisionError
    ensures r.Ok? ==> r.value * numSteps as real == total
  {
    if numSteps == 0 then Err(ZeroDivisionError) else Ok(total / numSteps as real)
  }

  /** `self.delta_t()` with its default arguments, as every caller in the class uses it. */
  function DefaultDeltaT(): (dt: real)
    ensures dt == 0.1
  {
    DeltaT(DefaultTotal, DefaultNumSteps).value
  }

  // ---------------------------------------------------------------------------
  // hamiltonian

  /** The values `np.random.rand(1, sites)` returns over the sites iterations
      of the assembly loop: one row of sites values per iteration. */
  ghost predicate DrawsShaped(rows: seq<seq<real>>, n: nat)
  {
    |rows| == n && forall i :: 0 <= i < n ==> |rows[i]| == n
  }

  /** `np.random.rand` draws uniformly from [0, 1). */
  ghost predicate UniformDraws(rows: seq<seq<real>>, n: nat)
  {
    DrawsShaped(rows, n) &&
    forall i, j :: 0 <= i < n && 0 <= j < n ==> 0.0 <= rows[i][j] < 1.0
  }

  /** The entry of the tight-binding Hamiltonian at (i, j): on the diagonal
      the draw the i-th iteration uses, the coupling on the super-diagonal,
      its conjugate on the sub-diagonal, and zero everywhere else. */
  ghost function HamiltonianEntry(sys: System, rows: seq<seq<real>>, i: nat, j: nat): Complex
    requires DrawsShaped(rows, sys.sites) && i < sys.sites && j < sys.sites
  {
    if i == j then FromReal(rows[i][i])
    else if j == i + 1 then sys.offDiagsMagnitude
    else if j == i - 1 then Conj(sys.offDiagsMagnitude)
    else Zero
  }

  /** The tight-binding Hamiltonian as a whole. */
  ghost function HamiltonianMatrix(sys: System, rows: seq<seq<real>>): (h: Matrix)
    requires DrawsShaped(rows, sys.sites)
    ensures |h| == sys.sites && IsSquare(h)
    ensures forall i, j :: 0 <= i < sys.sites && 0 <= j < sys.sites ==> h[i][j] == HamiltonianEntry(sys, rows, i, j)
  {
    var n := sys.sites;
    seq(n, i requires 0 <= i < n => seq(n, j requires 0 <= j < n => HamiltonianEntry(sys, rows, i, j)))
  }

  /** The cells of rows 0 .. k - 1 of an n-by-n matrix that lie on the main
      diagonal or next to it. */
  ghost function BandRows(n: nat, k: nat): set<(int, int)>
  {
    set i, j | 0 <= i < k && 0 <= j < n && -1 <= i - j <= 1 :: (i, j)
  }

  /** The tridiagonal band of an n-by-n matrix. */
  ghost function Band(n: nat): set<(int, int)>
  {
    BandRows(n, n)
  }

  /** The band cells of row i alone. */
  ghost function RowBand(n: nat, i: nat): set<(int, int)>
  {
    set j | 0 <= j < n && -1 <= i - j <= 1 :: (i, j)
  }

  lemma BandRowsNext(n: nat, k: nat)
    ensures BandRows(n, k + 1) == BandRows(n, k) + RowBand(n, k)
  {
  }

  /** Row i of the band: its left neighbour when there is one, the diagonal
      cell, its right neighbour when there is one. */
  lemma RowBandCells(n: nat, i: nat)
    requires i < n
    ensures RowBand(n, i) ==
      (if i > 0 then {(i, i - 1)} else {}) + {(i, i)} + (if i + 1 < n then {(i, i + 1)} else {})
  {
    var cells := (if i > 0 then {(i, i - 1)} else {}) + {(i, i)} + (if i + 1 < n then {(i, i + 1)} else {});
    forall c | c in RowBand(n, i) ensures c in cells {
      var j := c.1;
      assert j == i - 1 || j == i || j == i + 1;
    }
  }

  lemma {:induction false} BandRowsSize(n: nat, k: nat)
    requires k <= n
    ensures |BandRows(n, k)| == if k == 0 then 0 else if k < n then 3 * k - 1 else 3 * n - 2
  {
    if k == 0 {
      assert BandRows(n, 0) == {};
    } else {
      var i := k - 1;
      BandRowsSize(n, i);
      BandRowsNext(n, i);
      RowBandCells(n, i);
      assert BandRows(n, i) * RowBand(n, i) == {} by {
        forall c | c in RowBand(n, i) ensures c !in BandRows(n, i) {
          assert c.0 == i;
        }
      }
    }
  }

  /** The band of an n-by-n matrix holds n diagonal and 2 (n - 1) off-diagonal
      cells: 3 n - 2 cells in all. */
  lemma BandSize(n: nat)
    requires n >= 1
    ensures |Band(n)| == 3 * n - 2
  {
    BandRowsSize(n, n);
  }

  /** The assembled Hamiltonian is Hermitian. */
  lemma HamiltonianIsHermitian(sys: System, rows: seq<seq<real>>)
    requires DrawsShaped(rows, sys.sites)
    ensures IsHermitian(HamiltonianMatrix(sys, rows))
  {
    var h := HamiltonianMatrix(sys, rows);
    forall i, j | 0 <= i < |h| && 0 <= j < |h| ensures h[i][j] == Conj(h[j][i]) {
      ConjInvolutive(sys.offDiagsMagnitude);
    }
  }

  /** Entry by entry: the diagonal holds the draws, which are real and lie in
      [0, 1); each (i, i + 1) holds the coupling and each (i + 1, i) its
      conjugate; every entry two or more places from the diagonal is zero. */
  lemma HamiltonianEntries(sys: System, rows: seq<seq<real>>)
    requires UniformDraws(rows, sys.sites)
    ensures var h, n := HamiltonianMatrix(sys, rows), sys.sites;
      (forall i :: 0 <= i < n ==> h[i][i].im == 0.0 && 0.0 <= h[i][i].re < 1.0 && h[i][i].re == rows[i][i]) &&
      (forall i :: 0 <= i < n - 1 ==> h[i][i + 1] == sys.offDiagsMagnitude && h[i + 1][i] == Conj(sys.offDiagsMagnitude)) &&
      (forall i, j :: 0 <= i < n && 0 <= j < n && (i - j > 1 || j - i > 1) ==> h[i][j] == Zero)
  {
  }

  /** The cells that hold a non-zero value. */
  ghost function Support(m: Matrix): set<(int, int)>
  {
    set i, j | 0 <= i < |m| && 0 <= j < |m[i]| && m[i][j] != Zero :: (i, j)
  }

  /** Only band cells can be non-zero, so at most 3 N - 2 entries are. All of
      them are when the coupling and every draw used on the diagonal are
      non-zero. */
  lemma HamiltonianSupport(sys: System, rows: seq<seq<real>>)
    requires DrawsShaped(rows, sys.sites) && sys.sites >= 1
    ensures Support(HamiltonianMatrix(sys, rows)) <= Band(sys.sites)
    ensures |Support(HamiltonianMatrix(sys, rows))| <= 3 * sys.sites - 2
    ensures sys.offDiagsMagnitude != Zero && (forall i :: 0 <= i < sys.sites ==> rows[i][i] != 0.0) ==>
      |Support(HamiltonianMatrix(sys, rows))| == 3 * sys.sites - 2
  {
    var h, n := HamiltonianMatrix(sys, rows), sys.sites;
    BandSize(n);
    assert Support(h) <= Band(n) by {
      forall c | c in Support(h) ensures c in Band(n) {
        assert h[c.0][c.1] != Zero;
      }
    }
    Cardinality.SubsetSize(Support(h), Band(n));
    if sys.offDiagsMagnitude != Zero && (forall i :: 0 <= i < n ==> rows[i][i] != 0.0) {
      forall c | c in Band(n) ensures c in Support(h) {
        var (i, j) := c;
        if i == j {
          assert h[i][j].re == rows[i][i];
        } else if j == i - 1 {
          assert h[i][j] == Conj(sys.offDiagsMagnitude);
        }
      }
      assert Support(h) == Band(n);
    }
  }

  /** An array holding the Hamiltonian entries on the band and zero elsewhere
      is the whole Hamiltonian, since its entries off the band are zero. */
  lemma FilledBandIsHamiltonian(h: array2<Complex>, sys: System, rows: seq<seq<real>>)
    requires DrawsShaped(rows, sys.sites)
    requires h.Length0 == sys.sites && h.Length1 == sys.sites
    requires forall p, q :: 0 <= p < sys.sites && 0 <= q < sys.sites ==>
      h[p, q] == if (p, q) in Band(sys.sites) then HamiltonianEntry(sys, rows, p, q) else Zero
    ensures Elements(h) == HamiltonianMatrix(sys, rows)
  {
    var n, spec := sys.sites, HamiltonianMatrix(sys, rows);
    forall p, q | 0 <= p < n && 0 <= q < n ensures h[p, q] == spec[p][q] {
      if (p, q) !in Band(n) {
        assert spec[p][q] == HamiltonianEntry(sys, rows, p, q);
      }
    }
    ElementsEqual(h, spec);
  }

  /** One pass of the `hamiltonian` loop for a row that fits: the diagonal
      draw, then the right neighbour unless i is the last row, then the left
      neighbour unless i is row 0. `cells` records the cells assigned. */
  method FillRow(h: array2<Complex>, sys: System, rows: seq<seq<real>>, i: nat)
      returns (ghost cells: set<(int, int)>)
    requires DrawsShaped(rows, sys.sites) && i < sys.sites && (i == 0 ==> 1 < sys.sites)
    requires h.Length0 == sys.sites && h.Length1 == sys.sites
    modifies h
    ensures cells == RowBand(sys.sites, i)
    ensures forall p, q :: 0 <= p < sys.sites && 0 <= q < sys.sites ==>
      h[p, q] == if (p, q) in cells then HamiltonianEntry(sys, rows, p, q) else old(h[p, q])
  {
    var n := sys.sites;
    RowBandCells(n, i);
    h[i, i] := FromReal(rows[i][i]);
    cells := {(i, i)};
    if i == 0 {
      h[i, i + 1] := sys.offDiagsMagnitude;
      cells := cells + {(i, i + 1)};
    } else if i == n - 1 {
      h[i, i - 1] := Conj(sys.offDiagsMagnitude);
      cells := cells + {(i, i - 1)};
    } else {
      h[i, i + 1] := sys.offDiagsMagnitude;
      cells := cells + {(i, i + 1)};
      h[i, i - 1] := Conj(sys.offDiagsMagnitude);
      cells := cells + {(i, i - 1)};
    }
  }

  /** `hamiltonian`: fills a sites-by-sites zero matrix row by row. Row i gets
      its diagonal draw `rows[i][i]`; row 0 gets only its right neighbour, the
      last row only its left neighbour, every other row both. With a single
      site the row-0 write at column 1 is out of range and raises IndexError.
      `written` records the cells assigned. */
  method Hamiltonian(sys: System, rows: seq<seq<real>>)
      returns (r: Result<array2<Complex>>, ghost written: set<(int, int)>)
    requires DrawsShaped(rows, sys.sites)
    ensures r.Err? <==> sys.sites == 1
    ensures r.Err? ==> r.error == IndexError
    ensures r.Ok? ==> fresh(r.value) && r.value.Length0 == sys.sites && r.value.Length1 == sys.sites
    ensures r.Ok? ==> Elements(r.value) == HamiltonianMatrix(sys, rows)
    ensures r.Ok? ==> IsHermitian(Elements(r.value))
    ensures r.Ok? ==> written == Band(sys.sites)
    ensures r.Ok? ==> forall i, j :: 0 <= i < sys.sites && 0 <= j < sys.sites && (i, j) !in written ==>
      r.value[i, j] == Zero
  {
    var n := sys.sites;
    if n == 1 {
      // Row 0 writes its diagonal cell, then fails on column 1.
      r, written := Err(IndexError), {(0, 0)};
      return;
    }
    var h := new Complex[n, n]((p, q) => Zero);
    written := {};
    for i := 0 to n
      invariant written == BandRows(n, i)
      invariant forall p, q :: 0 <= p < n && 0 <= q < n ==>
        h[p, q] == if (p, q) in written then HamiltonianEntry(sys, rows, p, q) else Zero
    {
      BandRowsNext(n, i);
      var cells := FillRow(h, sys, rows, i);
      written := written + cells;
    }
    FilledBandIsHamiltonian(h, sys, rows);
    HamiltonianIsHermitian(sys, rows);
    r := Ok(h);
  }

  // ---------------------------------------------------------------------------
  // density_matrix

  /** `sp.outer(np.conjugate(bra).T, ket)`: `np.outer` flattens both column
      vectors, so entry (i, j) is conj(bra[i]) * ket[j]. */
  function DensityMatrix(bra: seq<Complex>, ket: seq<Complex>): (rho: Matrix)
    ensures |rho| == |bra| && forall i :: 0 <= i < |rho| ==> |rho[i]| == |ket|
  {
    seq(|bra|, i requires 0 <= i < |bra| =>
      seq(|ket|, j requires 0 <= j < |ket| => Mul(Conj(bra[i]), ket[j])))
  }

  /** The density matrix of one ket, with the ket used on both sides. */
  function PureDensityMatrix(ket: seq<Complex>): (rho: Matrix)
    ensures |rho| == |ket| && IsSquare(rho)
  {
    DensityMatrix(ket, ket)
  }

  /** The sum of conj(bra[i]) * ket[i] over the first k entries. */
  function Overlap(bra: seq<Complex>, ket: seq<Complex>, k: nat): Complex
    requires k <= |bra| && k <= |ket|
  {
    if k == 0 then Zero else Add(Overlap(bra, ket, k - 1), Mul(Conj(bra[k - 1]), ket[k - 1]))
  }

  /** The sum of |ket[i]|^2 over the first k entries. */
  function AbsSqSum(ket: seq<Complex>, k: nat): (s: real)
    requires k <= |ket|
    ensures s >= 0.0
  {
    if k == 0 then 0.0 else AbsSqSum(ket, k - 1) + AbsSq(ket[k - 1])
  }

  /** The squared norm of a ket. */
  function NormSq(ket: seq<Complex>): real
  {
    AbsSqSum(ket, |ket|)
  }

  /** The ket with every amplitude negated. */
  function Negated(ket: seq<Complex>): (neg: seq<Complex>)
    ensures |neg| == |ket|
  {
    seq(|ket|, i requires 0 <= i < |ket| => Neg(ket[i]))
  }

  lemma PureDensityMatrixIsHermitian(ket: seq<Complex>)
    ensures IsHermitian(PureDensityMatrix(ket))
  {
    var rho := PureDensityMatrix(ket);
    forall i, j | 0 <= i < |rho| && 0 <= j < |rho| ensures rho[i][j] == Conj(rho[j][i]) {
      ConjOfMulConj(ket[j], ket[i]);
    }
  }

  lemma {:induction false} DiagonalSumIsOverlap(bra: seq<Complex>, ket: seq<Complex>, k: nat)
    requires |bra| == |ket| && k <= |ket|
    ensures IsSquare(DensityMatrix(bra, ket))
    ensures DiagonalSum(DensityMatrix(bra, ket), k) == Overlap(bra, ket, k)
  {
    if k > 0 {
      DiagonalSumIsOverlap(bra, ket, k - 1);
    }
  }

  /** The trace of the outer product of two kets is their overlap: 1 only
      when the kets coincide as normalised states. */
  lemma DensityMatrixTrace(bra: seq<Complex>, ket: seq<Complex>)
    requires |bra| == |ket|
    ensures IsSquare(DensityMatrix(bra, ket))
    ensures Trace(DensityMatrix(bra, ket)) == Overlap(bra, ket, |ket|)
  {
    DiagonalSumIsOverlap(bra, ket, |ket|);
  }

  lemma {:induction false} OverlapWithSelf(ket: seq<Complex>, k: nat)
    requires k <= |ket|
    ensures Overlap(ket, ket, k) == FromReal(AbsSqSum(ket, k))
  {
    if k > 0 {
      OverlapWithSelf(ket, k - 1);
      MulConjSelf(ket[k - 1]);
    }
  }

  lemma {:induction false} OverlapWithNegated(ket: seq<Complex>, k: nat)
    requires k <= |ket|
    ensures Overlap(ket, Negated(ket), k) == FromReal(-AbsSqSum(ket, k))
  {
    if k > 0 {
      OverlapWithNegated(ket, k - 1);
      MulConjNeg(ket[k - 1]);
    }
  }

  /** The trace of the pure-state density matrix is the squared norm of the
      ket, so it is 1 exactly when the ket is normalised. */
  lemma PureDensityMatrixTrace(ket: seq<Complex>)
    ensures Trace(PureDensityMatrix(ket)) == FromReal(NormSq(ket))
    ensures NormSq(ket) == 1.0 ==> Trace(PureDensityMatrix(ket)) == One
  {
    DensityMatrixTrace(ket, ket);
    OverlapWithSelf(ket, |ket|);
  }

  /** `density_matrix` as written takes its bra and its ket from two separate
      `ground_state_ket()` calls. Should both calls see the same disorder
      draws, the eigensolver still fixes the eigenvector only up to a phase;
      when the second call returns the negation of a normalised first ket,
      the trace is -1 instead of 1. */
  lemma TwoCallsNegatedKetTrace(ket: seq<Complex>)
    requires NormSq(ket) == 1.0
    ensures IsSquare(DensityMatrix(ket, Negated(ket)))
    ensures NormSq(Negated(ket)) == 1.0
    ensures Trace(DensityMatrix(ket, Negated(ket))) == FromReal(-1.0)
  {
    DensityMatrixTrace(ket, Negated(ket));
    OverlapWithNegated(ket, |ket|);
    NegatedNormSq(ket, |ket|);
  }

  /** Two kets with disjoint support: at every site at least one of them is
      zero. With a zero coupling the Hamiltonian is diagonal and its ground
      states are unit kets at single sites, so two such kets on different
      sites are an example. */
  ghost predicate DisjointSupport(a: seq<Complex>, b: seq<Complex>)
  {
    |a| == |b| && forall i :: 0 <= i < |a| ==> a[i] == Zero || b[i] == Zero
  }

  lemma {:induction false} OverlapOfDisjointKets(a: seq<Complex>, b: seq<Complex>, k: nat)
    requires DisjointSupport(a, b) && k <= |a|
    ensures Overlap(a, b, k) == Zero
  {
    if k > 0 {
      OverlapOfDisjointKets(a, b, k - 1);
      MulConjZero(a[k - 1], b[k - 1]);
      assert Add(Zero, Zero) == Zero;
    }
  }

  /** `density_matrix` as written, when the two `ground_state_ket()` calls,
      each on its own disorder draws, return normalised kets with disjoint
      support: the trace is 0 instead of 1. With `off_diags_magnitude` = 0
      this happens whenever the two calls pick different sites. */
  lemma TwoCallsDisjointKetsTrace(a: seq<Complex>, b: seq<Complex>)
    requires DisjointSupport(a, b) && NormSq(a) == 1.0 && NormSq(b) == 1.0
    ensures IsSquare(DensityMatrix(a, b))
    ensures Trace(DensityMatrix(a, b)) == Zero
  {
    DensityMatrixTrace(a, b);
    OverlapOfDisjointKets(a, b, |b|);
  }

  lemma {:induction false} NegatedNormSq(ket: seq<Complex>, k: nat)
    requires k <= |ket|
    ensures AbsSqSum(Negated(ket), k) == AbsSqSum(ket, k)
  {
    if k > 0 {
      NegatedNormSq(ket, k - 1);
      AbsSqNeg(ket[k - 1]);
    }
  }

  // ---------------------------------------------------------------------------
  // trotter_decomposition

  /** `alpha = [i * decay_rate for i in range(sites)]`. */
  function Alpha(n: nat, decayRate: real): (alpha: seq<real>)
    ensures |alpha| == n
  {
    seq(n, i => i as real * decayRate)
  }

  /** The distance |p - q| of cell (p, q) from the main diagonal. */
  function Offset(p: int, q: int): nat
  {
    if p <= q then q - p else p - q
  }

  /** The value `exp(-delta_t() * alpha[k])` the kernel holds on the diagonals
      at offset k, with `exp` an arbitrary real function. */
  function DecayFactor(decayRate: real, exp: real -> real, k: nat): real
  {
    exp(-DefaultDeltaT() * (k as real * decayRate))
  }

  /** `gamma += np.diag(np.ones(n - |k|) * v, k)`: adds v to every cell of the
      k-th diagonal (column minus row equal to k) and leaves the others alone. */
  method AddDiagonal(gamma: array2<real>, k: int, v: real)
    requires gamma.Length0 == gamma.Length1
    requires -gamma.Length0 < k < gamma.Length0
    modifies gamma
    ensures forall p, q :: 0 <= p < gamma.Length0 && 0 <= q < gamma.Length1 ==>
      gamma[p, q] == old(gamma[p, q]) + (if q - p == k then v else 0.0)
  {
    var n := gamma.Length0;
    var len := if k >= 0 then n - k else n + k;
    for d := 0 to len
      invariant forall p, q :: 0 <= p < n && 0 <= q < n ==>
        gamma[p, q] == old(gamma[p, q]) + (if q - p == k && (if p <= q then p else q) < d then v else 0.0)
    {
      if k >= 0 {
        gamma[d, d + k] := gamma[d, d + k] + v;
      } else {
        gamma[d - k, d] := gamma[d - k, d] + v;
      }
    }
  }

  /** `trotter_decomposition`: starting from zeros, offset i in turn adds its
      decay factor on the +i diagonal and, unless i is 0, on the -i diagonal,
      so the main diagonal is filled once. Every cell ends up holding the
      factor of its distance from the diagonal, and the matrix is symmetric. */
  method TrotterDecomposition(sys: System, decayRate: real, exp: real -> real) returns (gamma: array2<real>)
    ensures fresh(gamma) && gamma.Length0 == sys.sites && gamma.Length1 == sys.sites
    ensures forall p, q :: 0 <= p < sys.sites && 0 <= q < sys.sites ==>
      gamma[p, q] == DecayFactor(decayRate, exp, Offset(p, q))
    ensures forall p, q :: 0 <= p < sys.sites && 0 <= q < sys.sites ==> gamma[p, q] == gamma[q, p]
  {
    var n := sys.sites;
    var alpha := Alpha(n, decayRate);
    gamma := new real[n, n]((p, q) => 0.0);
    for i := 0 to n
      invariant forall p, q :: 0 <= p < n && 0 <= q < n ==>
        gamma[p, q] == if Offset(p, q) < i then DecayFactor(decayRate, exp, Offset(p, q)) else 0.0
    {
      var exponent := -DefaultDeltaT() * alpha[i];
      assert exponent == -DefaultDeltaT() * (i as real * decayRate);
      var factor := exp(exponent);
      assert factor == DecayFactor(decayRate, exp, i);
      AddDiagonal(gamma, i, factor);
      if i != 0 {
        AddDiagonal(gamma, -i, factor);
      }
      forall p, q | 0 <= p < n && 0 <= q < n
        ensures gamma[p, q] == if Offset(p, q) < i + 1 then DecayFactor(decayRate, exp, Offset(p, q)) else 0.0
      {
        if Offset(p, q) == i {
          assert q - p == i || q - p == -i;
        }
      }
    }
  }

  /** With exp(0) = 1 the main diagonal of the kernel is all ones. */
  lemma DecayKernelDiagonal(decayRate: real, exp: real -> real)
    requires exp(0.0) == 1.0
    ensures DecayFactor(decayRate, exp, 0) == 1.0
  {
    assert -DefaultDeltaT() * (0.0 * decayRate) == 0.0;
  }

  /** With the default step 0.1 and decay rate 0.1, the first off-diagonal
      holds exp(-0.01). */
  lemma DecayKernelFirstOffDiagonal(exp: real -> real)
    ensures DecayFactor(0.1, exp, 1) == exp(-0.01)
  {
  }

  /** For an increasing exp and a positive decay rate, the factor shrinks
      strictly as the offset grows. */
  lemma DecayFactorDecreasing(decayRate: real, exp: real -> real, k1: nat, k2: nat)
    requires forall x, y :: x < y ==> exp(x) < exp(y)
    requires decayRate > 0.0 && k1 < k2
    ensures DecayFactor(decayRate, exp, k2) < DecayFactor(decayRate, exp, k1)
  {
    var dt := DefaultDeltaT();
    assert k1 as real * decayRate < k2 as real * decayRate;
    assert -dt * (k2 as real * decayRate) < -dt * (k1 as real * decayRate);
  }
}
