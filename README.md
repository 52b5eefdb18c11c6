# Anderson localisation with decoherence: a Dafny model

This project models the index-structured core of the `System` class in
`anderson_decoherence.py`. That class describes a one-dimensional disordered
tight-binding chain. The model covers:

- `hamiltonian`: assembles the tridiagonal Hamiltonian. Each diagonal cell
  gets a uniform random draw, each super-diagonal cell gets the coupling
  `off_diags_magnitude`, and each sub-diagonal cell gets its conjugate.
- `trotter_decomposition`: builds the banded decay kernel. Cell (p, q)
  holds `exp(-delta_t * |p - q| * decay_rate)`.
- `site_vector`: the integer site indices used as x values for plots.
- `density_matrix`: the outer product of the conjugated ground-state bra
  with the ground-state ket.
- `delta_t`: the time step `total / num_steps`.

The model is organised in four files:

- `complex.dfy` (module `ComplexNumbers`): complex numbers as pairs of
  exact reals, with conjugation, products and squared moduli.
- `matrix.dfy` (module `Matrices`): dense matrices as sequences of rows,
  being Hermitian, the trace, and the contents of a two-dimensional array.
- `cardinality.dfy` (module `Cardinality`): one fact about finite sets,
  used to count the Hamiltonian's non-zero cells.
- `anderson_decoherence.dfy` (module `AndersonDecoherence`): the `System`
  operations and the properties proved about them.

How each operation is modelled:

- A `System` is never changed after construction, so it is a datatype
  value, and each method takes it as an argument.
- `hamiltonian` fills a zero matrix cell by cell in a loop over the rows.
  `trotter_decomposition` starts from a zero matrix and, for each offset,
  adds one whole `np.diag(...)` matrix with `+=`. The model performs each
  such `+=` as a loop over the cells of that one diagonal (`AddDiagonal`).
  Both operations are methods over `array2`, each proved against a
  reference function: `HamiltonianMatrix` and `DecayFactor` respectively.
- `np.random.rand` is replaced by an input sequence of draws. Iteration i of
  the assembly loop draws a row of `sites` values and uses only its i-th
  entry, so the input is one row per iteration.
- `np.exp` is an arbitrary function parameter `exp: real -> real`. The
  lemmas state what they assume about it, for example `exp(0) = 1` or that
  `exp` is increasing.
- Arithmetic is on exact reals. Floating-point rounding is not modelled.

## Model

| member | source | states |
|---|---|---|
| `AndersonDecoherence.Hamiltonian` | anderson_decoherence.py:18-34 | With exactly one site it fails with IndexError, and only then. Otherwise it returns a fresh sites×sites array equal to the tight-binding Hamiltonian, which is Hermitian. The cells it assigns are exactly the tridiagonal band, and every other cell is zero. |
| `AndersonDecoherence.FillRow` | anderson_decoherence.py:26-33 | One loop iteration, for a row that has a neighbour. It assigns exactly the band cells of row i: the diagonal draw, the right neighbour unless i is the last row, and the left neighbour unless i is row 0. Each assigned cell gets its Hamiltonian entry, and every other cell is unchanged. |
| `AndersonDecoherence.HamiltonianIsHermitian` | anderson_decoherence.py:25-33 | Every entry equals the conjugate of its transposed entry. This holds because the coupling goes to (i, i+1), its conjugate goes to (i+1, i), and the diagonal is real. |
| `AndersonDecoherence.HamiltonianEntries` | anderson_decoherence.py:25-33 | Given uniform draws: the diagonal is real, lies in [0, 1), and is the draw of its own iteration. Each (i, i+1) holds the coupling and each (i+1, i) holds its conjugate. Every entry two or more places from the diagonal is zero. |
| `AndersonDecoherence.FilledBandIsHamiltonian` | anderson_decoherence.py:21-34 | An array that holds the Hamiltonian entry on every band cell and zero on every other cell (the zero matrix the loop starts from) is the whole Hamiltonian. |
| `AndersonDecoherence.RowBandCells` | anderson_decoherence.py:27-33 | The band cells of row i are: its left neighbour when i > 0, its diagonal cell, and its right neighbour when i + 1 < sites. These are the three branches of the loop. |
| `AndersonDecoherence.BandRowsSize` | anderson_decoherence.py:25-33 | After k rows of the loop, the number of cells assigned is 0, then 3k − 1 while rows remain, and 3·sites − 2 once all rows are done. |
| `AndersonDecoherence.BandSize` | anderson_decoherence.py:21-33 | The tridiagonal band of an N×N matrix (N ≥ 1) has 3N − 2 cells. |
| `AndersonDecoherence.HamiltonianSupport` | anderson_decoherence.py:21-33 | Only band cells of the sparse matrix can be non-zero, so at most 3N − 2 entries are stored as non-zero. Exactly 3N − 2 are when the coupling and every diagonal draw are non-zero. |
| `AndersonDecoherence.LinspacePointOnLine` | anderson_decoherence.py:62 | Every point `np.linspace` produces lies on the straight line from start to stop, including the last point, which is set to stop itself. |
| `AndersonDecoherence.Linspace` | anderson_decoherence.py:62 | num points, where point k is start + k·(stop − start)/(num − 1), or just start when num = 1. |
| `AndersonDecoherence.SiteVector` | anderson_decoherence.py:60-62 | The site vector has length `sites`, and entry k is k: exactly the indices 0 … sites − 1. |
| `AndersonDecoherence.DefaultSiteVector` | anderson_decoherence.py:13-14 | For `System()` with its default 200 sites, the site vector is exactly 0, 1, …, 199. |
| `AndersonDecoherence.DeltaT` | anderson_decoherence.py:74-76 | It succeeds exactly when num_steps ≠ 0, and then result × num_steps = total. With num_steps = 0 it fails with ZeroDivisionError. |
| `AndersonDecoherence.DefaultDeltaT` | anderson_decoherence.py:74-76 | With the default arguments (3 and 30), the time step is 0.1. |
| `AndersonDecoherence.DensityMatrix` | anderson_decoherence.py:69-72 | The outer product has one row per bra amplitude and one column per ket amplitude. |
| `AndersonDecoherence.DensityMatrixTrace` | anderson_decoherence.py:69-72 | The trace of the outer product of a bra and a ket is their overlap, the sum over i of conj(bra[i])·ket[i]. |
| `AndersonDecoherence.PureDensityMatrixIsHermitian` | anderson_decoherence.py:69-72 | With the same ket on both sides, the density matrix is Hermitian. |
| `AndersonDecoherence.PureDensityMatrixTrace` | anderson_decoherence.py:69-72 | With the same ket on both sides, the trace is the squared norm of the ket. So it is 1 for a normalised ket. |
| `AndersonDecoherence.TwoCallsDisjointKetsTrace` | anderson_decoherence.py:69-72 | The two `ground_state_ket()` calls each go through `hamiltonian()` and so use their own disorder draws. Suppose they return normalised kets with disjoint support (at every site one of them is zero). Then the density matrix as written has trace 0, not 1. This happens with `off_diags_magnitude` = 0 and `sites` ≥ 4 (the eigensolver call at line 41 needs more sites than that), for example the default 200. The Hamiltonian is then diagonal, so each call returns a unit ket at one of the two lowest-draw sites of its own `eigenstates()` draw, the column being picked by an index from yet another draw (lines 54, 58). When the two calls pick different sites, the kets have disjoint support. With a non-zero coupling no eigenvector has a zero at site 0, so the kets never have disjoint support; the trace is then their overlap (`DensityMatrixTrace`), which is 1 only when the two normalised kets are equal. |
| `AndersonDecoherence.TwoCallsNegatedKetTrace` | anderson_decoherence.py:69-72 | Suppose the two calls return a normalised ket and its negation. This needs both calls to see the same disorder draws, with the eigensolver picking opposite signs for the one eigenvector. Then the density matrix as written has trace −1. |
| `AndersonDecoherence.AddDiagonal` | anderson_decoherence.py:87-93 | `gamma += np.diag(ones * v, k)` adds v to every cell whose column minus row is k, and leaves every other cell unchanged. |
| `AndersonDecoherence.TrotterDecomposition` | anderson_decoherence.py:82-94 | Returns a fresh sites×sites array. Cell (p, q) holds exp(−delta_t · \|p − q\| · decay_rate): the main diagonal is filled once and each ±i diagonal pair gets the same factor. The kernel is symmetric. |
| `AndersonDecoherence.DecayKernelDiagonal` | anderson_decoherence.py:84-89 | When exp(0) = 1, every main-diagonal cell of the kernel is 1. |
| `AndersonDecoherence.DecayKernelFirstOffDiagonal` | anderson_decoherence.py:82-92 | With the default `decay_rate` of 0.1 and the default step 0.1, the cells next to the diagonal hold exp(−0.01). |
| `AndersonDecoherence.DecayFactorDecreasing` | anderson_decoherence.py:84-93 | For an increasing exp and a positive decay rate, the kernel entry strictly decreases as the distance from the diagonal grows. |

## Left out

- `low_energy_states`, `energies`, `eigenstates`, `ground_state_index` and `ground_state_ket` (anderson_decoherence.py:36-58) are not modelled. They call SciPy's iterative floating-point eigensolver (`eigsh` in shift-invert mode). `density_matrix` takes its two kets as inputs instead.
- `propagator` (anderson_decoherence.py:78-80) is not modelled. It calls SciPy's dense matrix exponential `expm`.
- `plot_ground_state` (anderson_decoherence.py:64-67) is not modelled. It is matplotlib output; only its x values, `site_vector`, are modelled.
- `evolve_ground_state` and `plot_evolution` (anderson_decoherence.py:96-102) have empty bodies in the source, so there is nothing to model.
- Randomness: the draws of `np.random.rand` are an input sequence. Their uniform distribution is reduced to the range [0, 1) (`UniformDraws`).
- `np.exp` is a function parameter with no properties beyond those a lemma assumes.
- All arithmetic uses exact reals. `float64`/`complex128` rounding is not modelled, so the round-off in `3 / 30` and in `np.linspace` is ignored.
- Sparse storage is not modelled. The `lil_matrix` assembled row by row and its conversion to `tocsc` are both a dense `array2<Complex>`.
- `Hamiltonian`: with one site, the model returns IndexError without modelling the diagonal cell that was assigned before the failing write. The exception discards the matrix anyway.
- `System`: a negative `sites` is not modelled (`sites` is a `nat`), so `Hamiltonian`, `SiteVector` and `TrotterDecomposition` never see one; in the source `np.linspace` and `np.zeros` raise ValueError for it.
- `Hamiltonian`: with `sites = 0` the loop never runs, and the result is an empty matrix, not an error. This follows the code.
- The `disorder` field is stored but never read by any operation, so it has no effect in the model either.
- `TrotterDecomposition`: `delta_t()` is always called with its defaults in the source, so the step is the constant 0.1 (`DefaultDeltaT`), not a parameter.
- `DensityMatrix`: for two differing kets, only the disjoint-support case (`TwoCallsDisjointKetsTrace`) and the negated-ket case (`TwoCallsNegatedKetTrace`) are stated outright. For arbitrary kets, `DensityMatrixTrace` gives the trace as their overlap.

## Findings

| source | as written | input that shows it | evidently intended | confidence | as-written member | corrected member |
|---|---|---|---|---|---|---|
| anderson_decoherence.py:69-72 | The bra and the ket come from two separate `ground_state_ket()` calls. Each call makes its own `hamiltonian()` draws (line 26). Within one call, `eigenstates()` (lines 48-50) and `ground_state_index()` (lines 52-54) each draw a Hamiltonian of their own, so the column picked is chosen by an index computed on a different draw. The bra and the ket therefore come from different draws. | `off_diags_magnitude` = 0 with `sites` ≥ 4 (for example the default 200): the Hamiltonian is diagonal, each call returns a unit ket at one of the two lowest-draw sites of its own `eigenstates()` draw, and when the two calls return kets at different sites, the kets have disjoint support and the density matrix as written has trace 0 instead of 1. | Use one ket on both sides: the density matrix is then Hermitian, with trace equal to the squared norm, which is 1. | not executed; with a non-zero coupling the kets never have disjoint support, and the trace is their overlap, which is 1 only when the two normalised kets coincide | `AndersonDecoherence.TwoCallsDisjointKetsTrace` | `AndersonDecoherence.PureDensityMatrixTrace` |

Two behaviours of the code worth noting:

- `hamiltonian` has no check on `sites`. With one site it raises IndexError at the write to column 1 (line 28). With zero sites the loop never runs, and it builds an empty matrix.
- `density_matrix` computes `np.outer(conj(bra), ket)`, whose entry (i, j) is conj(ψᵢ)·ψⱼ. This is the transpose of |ψ⟩⟨ψ|. For one ket, both are Hermitian.
