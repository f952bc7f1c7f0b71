# clusteringtools: normalised marks and random-point generators in Dafny

This project models two parts of the `clusteringtools` package and proves
properties about them.

- **`normalised_marks(x, y, bins)`** (`clusteringtools/utils.py`). It gives each
  entry of `y` a mark: its rank among the `y` values of the same half-open bin
  `[bins[i], bins[i+1])` of `x`, divided by the largest rank in that bin.
  Entries in no bin keep NaN.
  - `outcomes.dfy` holds the Option and Result wrappers.
  - `ranking.dfy` models `numpy.argsort` by what it promises. An `ArgSorter` is
    any function that maps every input to a permutation of its indices that
    sorts the values ascending. The routine takes the argsort as a parameter,
    and everything proved holds for every `ArgSorter`, so the order of equal
    values is left open, as numpy's default (unstable) sort leaves it. The file
    also derives the rank of each position from that permutation.
  - `masking.dfy` models the boolean-mask operations the routine uses. These
    are the bin mask, `numpy.sum(m)`, `y[m]` and `marks[m] = vals`.
  - `utils.dfy` models the per-bin computation and the loop over the bins. The
    loop is modelled twice: once with the bound the code has, and once with the
    bound the routine evidently intends (see Findings).
- **`BaseRVS` and its generators** (`clusteringtools/random.py`), in
  `random.dfy`.
  - The `radius` and `boxsize` settings, with their getters and setters.
  - The three constructors.
  - The samples of `RVSinbox`, computed from uniform draws that are passed in
    as an input.
  - The fact that `RVSinsphere.__call__` always fails.

The methods follow the code's own shape:

- Loops are `for` loops with invariants.
- `_marks` and `marks` are arrays updated in place.
- The vectorised numpy updates (`_marks /= ...`, `marks[m] = _marks`) are
  `forall` statements.
- The generator is a class whose setters modify its fields.

Each method is proved against a function that specifies it:

- `BinMarks` against `BinMarksSpec`.
- The bin loop against `ProcessBins`.

The properties the routine promises are lemmas about those functions.

Some behaviour of the code is worth stating outright:

- A setter overwrites any earlier value of its setting.
- Errors are the exceptions the code raises:
  - `NotImplementedError` for a non-floating `y`.
  - `AssertionError` for a non-positive setting.
  - `RuntimeError` for reading an unset setting.
  - `IndexError` and `ValueError` from numpy, and `ValueError` from
    `gen.random` for a negative number of samples.
- An empty bin raises `ValueError`, because `numpy.nanmax` of an empty array
  does. It does not yield an empty set of marks.
- `RVSinsphere.__call__` does not sample the sphere. It reads the undefined
  attribute `self.R` and fails.

## Model

| member | source | states |
|---|---|---|
| `Ranking.ArgSort` | clusteringtools/utils.py:52 | an argsort exists: this insertion sort returns a permutation of the indices that lists the values in ascending order |
| `Ranking.Ranks` | clusteringtools/utils.py:52-53 | the loop over the argsort writes one rank per position of the bin |
| `Ranking.RanksInvert` | clusteringtools/utils.py:52-53 | the loop `_marks[ind] = n` gives position `order[n]` the rank `n` |
| `Ranking.RanksArePermutation` | clusteringtools/utils.py:52-53 | the ranks of a bin of k entries are a permutation of 0..k-1, so each rank is written exactly once |
| `Ranking.RanksRespectOrder` | clusteringtools/utils.py:52-53 | a strictly smaller value gets a strictly smaller rank, whatever the argsort does with ties |
| `Ranking.RankExtremes` | clusteringtools/utils.py:52-53 | rank 0 belongs to a smallest value of the bin and rank k-1 to a largest |
| `Masking.Mask` | clusteringtools/utils.py:49 | the mask `(x >= lo) & (x < hi)` has one entry per entry of `x` |
| `Masking.Count` | clusteringtools/utils.py:51 | `numpy.sum(m)` counts at most the length of the mask |
| `Masking.MaskIsHalfOpen` | clusteringtools/utils.py:49 | an entry is in the bin exactly when `lo <= x < hi`: the lower edge is in the bin and the upper edge is not |
| `Masking.Select` | clusteringtools/utils.py:51-52 | `y[m]` has `numpy.sum(m)` entries, so `_marks` has one entry per selected value |
| `Masking.SelectAt` | clusteringtools/utils.py:52 | `y[m]` keeps the array's order: the selected position j is entry `Count(m[..j])` of `y[m]` |
| `Masking.Scatter` | clusteringtools/utils.py:56 | `marks[m] = vals` keeps the length of `marks` |
| `Masking.ScatterAt` | clusteringtools/utils.py:56 | `marks[m] = vals` gives the n-th selected position `vals[n]` and leaves every unselected position unchanged |
| `Masking.SelectOfAgreeing` | clusteringtools/utils.py:52-56 | an array that holds `vals` at the selected positions, in order, reads back as `vals` through the mask |
| `Masking.SelectScatter` | clusteringtools/utils.py:56 | assigning through a mask and then selecting through it returns the assigned values |
| `Masking.AssignMasked` | clusteringtools/utils.py:56 | the in-place `marks[m] = vals` leaves the array equal to Scatter of its old contents |
| `Utils.AllNaN` | clusteringtools/utils.py:46 | `numpy.full_like(y, nan)` has the length of `y` and only NaN entries |
| `Utils.NanMax` | clusteringtools/utils.py:54 | `numpy.nanmax` gives ValueError exactly for an empty array and NaN exactly when every entry is NaN; otherwise it gives an entry at least as large as every non-NaN entry |
| `Utils.WriteRanks` | clusteringtools/utils.py:51-53 | after the loop over the argsort, every position of `_marks` holds its rank and no NaN is left |
| `Utils.Divide` | clusteringtools/utils.py:54 | numpy division of marks gives NaN exactly when either operand is NaN or the divisor is zero (0/0) |
| `Utils.DivideInverts` | clusteringtools/utils.py:54 | a quotient that is a value, times the divisor, gives back the dividend |
| `Utils.NanMaxOfRanks` | clusteringtools/utils.py:54 | the `nanmax` of the ranks of a non-empty bin of k entries is k-1 |
| `Utils.DividedRanks` | clusteringtools/utils.py:54 | dividing the ranks by k-1 gives rank/(k-1), or the single mark 0/0 = NaN when k = 1 |
| `Utils.DivideAll` | clusteringtools/utils.py:54 | `_marks /= d` divides every entry in place by the same divisor |
| `Utils.BinMarksSpec` | clusteringtools/utils.py:51-54 | one bin's marks fail exactly when the bin is empty, and otherwise have one mark per value |
| `Utils.BinMarks` | clusteringtools/utils.py:51-54 | for any argsort, the marks the code computes for one bin are BinMarksSpec: ValueError for an empty bin, NaN for one entry, and otherwise rank/(k-1) for that argsort's ranks |
| `Utils.BinMarksSpecCases` | clusteringtools/utils.py:51-54 | one bin's marks are ValueError when it is empty, [NaN] for one entry, and otherwise the normalised ranks of some argsort, with one mark per entry |
| `Utils.MarksInUnitInterval` | clusteringtools/utils.py:20-23 | every mark of a bin with more than one entry lies in [0, 1] |
| `Utils.MarksFollowValues` | clusteringtools/utils.py:20-23 | a strictly smaller value gets a strictly smaller mark, and a smaller mark never belongs to a larger value |
| `Utils.MarksExtremes` | clusteringtools/utils.py:51-54 | mark 0 goes to a smallest value of the bin and mark 1 to a largest |
| `Utils.MarksAreLevels` | clusteringtools/utils.py:54 | the marks of a bin of k entries are exactly the levels n/(k-1): every level occurs, and each entry's mark is the level of its rank, which is below k |
| `Utils.MarksMedian` | clusteringtools/utils.py:25-26 | a mark of 0.5 belongs to the median: the bin has an odd number k of entries, the entry has rank (k-1)/2, entries ranked below it are not larger and entries ranked above it are not smaller |
| `Utils.ProcessBins` | clusteringtools/utils.py:46-56 | processing the first n bins in order gives one mark per entry of `y` |
| `Utils.ProcessBinsOutcome` | clusteringtools/utils.py:48-54 | processing n bins succeeds exactly when none of them is empty |
| `Utils.ProcessBinsErrorIsValueError` | clusteringtools/utils.py:54 | the only error that processing the bins can produce is the ValueError of an empty bin |
| `Utils.ProcessBinsErrorPersists` | clusteringtools/utils.py:48-54 | once a bin has failed, processing further bins still fails |
| `Utils.ProcessBinsOutside` | clusteringtools/utils.py:46-56 | an entry whose `x` is in none of the processed bins keeps NaN |
| `Utils.ProcessBinsInBin` | clusteringtools/utils.py:49-56 | an entry in bin i and in no later processed bin holds its mark from bin i |
| `Utils.ProcessBinsSortedEdges` | clusteringtools/utils.py:48-56 | with ascending edges, reading the result through the mask of any processed bin gives exactly that bin's marks |
| `Utils.MarkBin` | clusteringtools/utils.py:49-56 | one pass of the loop body raises IndexError exactly when `x` and `y` differ in length; an empty bin raises the ValueError that makes the whole routine fail; otherwise the array holds the marks after this bin |
| `Utils.EmptyBinFails` | clusteringtools/utils.py:48-54 | an empty bin makes every later stage of the processing end in ValueError |
| `Utils.NormalisedMarks` | clusteringtools/utils.py:19-58 | as written, for any argsort: non-floating `y` gives NotImplementedError and empty `bins` gives all NaN; any other call fails, with ValueError exactly when `x` and `y` have the same length and one of the first `bins.size - 1` bins is empty, and with IndexError otherwise |
| `Utils.NormalisedMarksFixed` | clusteringtools/utils.py:43-58 | with `bins.size - 1` passes, for any argsort: non-floating `y` gives NotImplementedError, fewer than two edges gives all NaN, `x` and `y` of different lengths give IndexError, and otherwise the result is ProcessBins over all bins |
| `Random.Rvs.constructor` | clusteringtools/random.py:25-26 | a new generator has neither setting set |
| `Random.Rvs.Radius` | clusteringtools/random.py:28-32 | reading `radius` gives RuntimeError exactly while it is unset, and otherwise the stored value, which is positive |
| `Random.Rvs.BoxSize` | clusteringtools/random.py:39-43 | reading `boxsize` gives RuntimeError exactly while it is unset, and otherwise the stored value, which is positive |
| `Random.Rvs.SetRadius` | clusteringtools/random.py:34-37 | a value that is not positive gives AssertionError and changes nothing; a positive value replaces any earlier one and reads back; `boxsize` is untouched; all settings stay positive |
| `Random.Rvs.SetBoxSize` | clusteringtools/random.py:45-48 | a value that is not positive gives AssertionError and changes nothing; a positive value replaces any earlier one and reads back; `radius` is untouched; all settings stay positive |
| `Random.Rvs.NewInSphere` | clusteringtools/random.py:84-86 | `RVSinsphere(radius, boxsize)` succeeds exactly when both values are positive; it then reads both back, and otherwise raises AssertionError |
| `Random.Rvs.NewInBox` | clusteringtools/random.py:112-113 | `RVSinbox(boxsize)` succeeds exactly when `boxsize` is positive; it then reads it back and leaves `radius` unset |
| `Random.Rvs.NewOnSphere` | clusteringtools/random.py:124-130 | `RVSonsphere()` leaves both settings unset |
| `Random.Rvs.CallInBox` | clusteringtools/random.py:115-121 | `RVSinbox.__call__` gives ValueError for a negative `nsamples` (the draws come first), otherwise RuntimeError exactly when `boxsize` is unset, and otherwise `nsamples` samples of 3 coordinates |
| `Random.Rvs.CallInSphere` | clusteringtools/random.py:88-91 | `RVSinsphere.__call__` always fails: ValueError exactly for a negative `nsamples`, AttributeError otherwise |
| `Random.ScaledSamples` | clusteringtools/random.py:118-121 | `boxsize * numpy.vstack(draws).T` has `nsamples` rows of 3 coordinates |
| `Random.ScaledSamplesColumns` | clusteringtools/random.py:118-121 | the stacking only transposes: column c of the samples, divided by the box size, is the c-th call's draws in order |
| `Random.ScaledSamplesInBox` | clusteringtools/random.py:118-121 | with draws in [0, 1) and a positive size, every coordinate lies in [0, size) |
| `Random.InBoxWithinBox` | clusteringtools/random.py:115-121 | every coordinate of every `RVSinbox` sample lies in [0, boxsize) when the draws lie in [0, 1) |

## Left out

- The `bins.ndim == x.ndim == y.ndim == 1` assertion (utils.py:41) is left out. Inputs are one-dimensional sequences by construction.
- Floating-point arithmetic is left out.
  - Values are exact reals, so float32/float64 rounding and `dtype` are not modelled.
  - NaN or infinite entries in `x`, `y` or `bins` are not modelled.
  - The infinity of a nonzero value divided by zero cannot arise from ranks, and `Divide` excludes it.
- `numpy.argsort` is modelled by what it promises: a sorting permutation. Its particular tie-breaking among equal values is not modelled. The routine takes the argsort as a parameter, and every result holds for each sorting permutation.
- Unsorted `bins` are modelled (later bins overwrite earlier ones, as the loop does). The edges are never validated, because the code does not validate them.
- The RuntimeWarning that numpy emits for 0/0 is left out. I/O is not part of the model.
- `Random.Rvs.SetRadius` and `Random.Rvs.SetBoxSize` model the `assert` checks (random.py:36, 47) as always on. Under `python -O` the asserts are removed, and the setters, and hence the constructors, store non-positive values.
- `Random.Rvs.CallInBox` and `Random.Rvs.CallInSphere` take an integer `nsamples`. A count that is not an integer is not modelled.
- The random number generator is left out.
  - `numpy.random.default_rng(random_state).random` is not modelled, nor are `random_state` and `dtype`.
  - Its draws are an input to `Random.Rvs.CallInBox`, and `Random.UnitDraws` states the range it promises.
- Float32 rounding of `boxsize * u` could give exactly `boxsize`. The bound in `Random.InBoxWithinBox` is for exact reals.
- The samplers that use trigonometric functions are left out: `RVSinsphere.__call__` past its failing `self.R` and `RVSonsphere.__call__` (random.py:130-135). Dafny reals have no `arccos`, `sin`, `cos`, `arcsin` or `pi`.
- The abstract `BaseRVS.__call__` (random.py:50-68) is left out. It has no behaviour.
- `setup.py` is packaging and is not part of this model.

## Findings

| source | as written | input that shows it | evidently intended | confidence | as-written member | corrected member |
|---|---|---|---|---|---|---|
| clusteringtools/utils.py:48-49 | `for i in range(bins.size)` reads `bins[i + 1]`, so the last pass reads `bins[bins.size]`, one past the end | `x=[0,0,0,1,1]`, `y=[3,1,2,5,4]`, `bins=[0,1,2]`: both bins are marked, then the third pass raises IndexError instead of returning `[1, 0, 0.5, 1, 0]`; every non-empty `bins` ends in IndexError or, for an empty bin, ValueError | `range(bins.size - 1)`: one pass per bin `[bins[i], bins[i+1])` | high; not executed | `Utils.NormalisedMarks` | `Utils.NormalisedMarksFixed` |
