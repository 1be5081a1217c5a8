# ELECTRE TRI majority sorting — a Dafny model

This project models the computational core of a small ELECTRE TRI
implementation (`main.py`). The program sorts food items into ordered
categories `A` … `E` using boundary profiles `b_1 … b_r` evaluated on weighted
"max" or "min" criteria. A run has these stages:

1. **Partial concordance** (`get_c_j`, `get_indices_de_concordance_partiels`).
   For every criterion `j` and every item × profile pair `(H, b)`, it records
   whether `H` is at least as good as `b` on `j`, and the converse. Each value
   is 0 or 1 and goes into a three-level dictionary `c[j][x][y]`.
2. **Global concordance** (`get_indices_de_concordance_globaux`). For every pair
   and both orientations, it computes the weighted sum of partial values
   divided by the sum of all weights.
3. **Outranking** (`surclass`). `H S b` holds when `C[H][b]` reaches the
   majority threshold.
4. **Pessimistic sorting**. For each item, profiles `b[r-1]` down to `b[0]`
   are scanned. The item takes `categories[k]` for the first profile it
   outranks, and `categories[0]` when it outranks none.
5. **Optimistic sorting**. For each item, profiles `b[1]` up to `b[r]` are
   scanned. The item takes `categories[k-1]` for the first profile that
   strictly outranks it, and `categories[r-1]` when no profile does.

Modules, one per stage, plus shared data and the run itself:

- `ElectreData` (`electre_data.dfy`) holds the entities.
  - A Python dictionary of evaluation vectors is `Entities(keys, vectors)`: its
    iteration order plus its lookup map.
  - `Valid` states that every key occurs once.
  - A crash is an `Err` of a `Result`:
    - `InvalidDirection` for the failed `assert` on the direction tag;
    - `ZeroDivision` for the zero weight sum;
    - `IndexOutOfRange` for an `IndexError` on the profile list or the
      category list.
- `PairTables` (`pair_tables.dfy`) describes the two-level tables filled pair
  by pair: their rows after each step, and the finished shape.
- `PartialConcordance` (`partial_concordance.dfy`) holds the per-criterion
  comparison and the imperative builder of the partial table.
- `GlobalConcordance` (`global_concordance.dfy`) holds the weighted sums, the
  global index and the imperative builder of the global table.
- `Outranking` (`outranking.dfy`) holds the outranking relation.
- `MajoritySorting` (`majority_sorting.dfy`) holds the two assignment
  procedures. Each is a method with loops, proved against a recursive
  specification function: `PessimisticIndex` and `OptimisticScan`.
- `ElectreTri` (`electre_tri.dfy`) chains the stages as the main block does.

The builders and sorters are methods with `for` loops, following the source's
nested loops. The partial and global builders fill an item's row through a
separate per-item method (`FillRow`, `FillGlobalRow`). Likewise, each sorter's
inner scan is a separate method (`PessimisticPosition`, `OptimisticPosition`).
Where the code departs from ELECTRE TRI as the method is usually stated, the
model follows the code:

- The optimistic scan can read up to `b[r]`. With `r` categories and only `r`
  profiles, an item fails when its scan passes every profile it can read
  without meeting one that strictly outranks it. An item that stops earlier
  is assigned normally. `OptimisticSort` reports the failure as
  `IndexOutOfRange` and states exactly which scans reach it. With `r + 1`
  profiles or more, no scan fails.
- In ELECTRE TRI, an item's pessimistic category is never above its optimistic
  one. The code does not guarantee this. An item that neither
  outranks nor is outranked by any boundary gets `categories[0]` from one
  procedure and `categories[r-1]` from the other
  (`MajoritySorting.IncomparableGetsOppositeEnds`). No ordering between the
  two results is claimed.
- With no categories (`r = 0`) both scans are empty, and the default
  `categories[0]` or `categories[r-1]` fails on the first item. Both sorters
  report this as `IndexOutOfRange`.

## Model

| member | source | states |
|---|---|---|
| `PairTables.StorePair` | main.py:65-67 | Getting or creating the rows of `h` and `b`, then storing one value in each orientation, adds exactly those two rows and entries and leaves every other row and entry unchanged |
| `PartialConcordance.CriterionConcordance` | main.py:27-43 | A direction tag other than "max" or "min" fails. Otherwise both values are 0 or 1, at least one is 1, and both are 1 exactly when the two values on criterion `j` are equal |
| `PartialConcordance.MinIsSwappedMax` | main.py:36-41 | A "min" criterion gives the "max" values with the two entities swapped |
| `PartialConcordance.MinIsMaxOfNegated` | main.py:36-41 | A "min" criterion gives the "max" values of the negated vectors |
| `PartialConcordance.MaxFavoursLarger` | main.py:36-38 | On a "max" criterion, raising the item's value never removes its concordance with the profile and never adds the profile's concordance with it |
| `PartialConcordance.MinFavoursSmaller` | main.py:39-41 | On a "min" criterion, raising the item's value never adds its concordance with the profile and never removes the profile's concordance with it |
| `PartialConcordance.ConcordanceReadsOnlyIndex` | main.py:37-41 | Only the `j`-th value of either vector affects the result |
| `PartialConcordance.FillRow` | main.py:64-67 | Pairing one item with every profile fails exactly when a pair is visited under a bad tag. Otherwise it extends the table's rows by one item and stores the pair's partial values in both orientations |
| `PartialConcordance.BuildLayer` | main.py:63-67 | The layer for criterion `j` fails exactly when some pair exists and the tag is bad. Otherwise it has one row per item keyed by every profile, one row per profile keyed by every item, and each entry is the pair's partial value |
| `PartialConcordance.BuildPartialTable` | main.py:61-68 | Fails exactly when some pair exists and some criterion's tag is bad. Otherwise it has a layer for each criterion index and no other key, and each layer is that criterion's partial layer |
| `GlobalConcordance.WeightSumNonNegative` | main.py:81 | The sum of non-negative weights is non-negative |
| `GlobalConcordance.WeightSumMonotone` | main.py:81 | With non-negative weights, summing more of them never decreases the sum |
| `GlobalConcordance.WeightedConcordanceBounds` | main.py:85-86 | With binary partial values and non-negative weights, the weighted count lies between 0 and the sum of the counted weights |
| `GlobalConcordance.GlobalIndexInUnitInterval` | main.py:85-86 | With binary partial values, non-negative weights and a non-zero total, every global index lies in [0, 1] |
| `GlobalConcordance.AllConcordant` | main.py:85-86 | When an entity concords on every counted criterion, its weighted count equals the sum of those weights |
| `GlobalConcordance.AllConcordantIndexIsOne` | main.py:85-86 | When an entity concords on every criterion, its global index is 1 |
| `GlobalConcordance.NoneConcordant` | main.py:85-86 | When an entity concords on no counted criterion, its weighted count is 0 |
| `GlobalConcordance.NoneConcordantIndexIsZero` | main.py:85-86 | When an entity concords on no criterion and the weight total is non-zero, its global index is 0 |
| `GlobalConcordance.FillGlobalRow` | main.py:82-86 | Pairing one item with every profile fails with a division by zero exactly when a pair is visited and the weights sum to 0. Otherwise it stores both global indices of each of the item's pairs |
| `GlobalConcordance.BuildGlobalTable` | main.py:80-87 | Fails with a division by zero exactly when some pair exists and the weights sum to 0. Otherwise the table has the rows of a pair table, and both orientations of every pair hold the weighted count divided by the weight total |
| `GlobalConcordance.GlobalTableInUnitInterval` | main.py:80-87 | Built from binary partial values and non-negative weights, every entry of the global table lies in [0, 1] |
| `Outranking.Surclass` | main.py:89-99 | `h S b` holds exactly when `C[h][b]` reaches the threshold, and `b S h` exactly when `C[b][h]` does |
| `Outranking.SurclassAntitone` | main.py:97-98 | Raising the threshold can only remove outrankings, never add them |
| `Outranking.SurclassExtremes` | main.py:97-98 | On indices in [0, 1], a threshold of at most 0 makes both orientations outrank, and a threshold above 1 makes neither outrank |
| `MajoritySorting.PessimisticIndex` | main.py:118-123 | The result is the largest `k < r` such that the item outranks `b[k]`, or 0 when it outranks none of them |
| `MajoritySorting.PessimisticPosition` | main.py:118-122 | The downward scan fails exactly when `r` exceeds the number of profiles. Otherwise it returns `PessimisticIndex` |
| `MajoritySorting.PessimisticSort` | main.py:101-124 | Fails with an index error exactly when some item exists and either there are no categories or there are more categories than profiles. Otherwise every item, and nothing else, is mapped to `categories[PessimisticIndex]`, which is one of the categories |
| `MajoritySorting.PessimisticThresholdMonotone` | main.py:118-123 | Lowering the threshold never lowers the pessimistic position |
| `MajoritySorting.PessimisticConsultsPrefix` | main.py:116-122 | The pessimistic position depends only on `b[0..r-1]` |
| `MajoritySorting.OptimisticScan` | main.py:143-149 | The scan stops at the first `k` in `1..r` where `b[k]` strictly outranks the item, recording `k-1`. With no such `k` it takes the default. It fails when it reaches a `k` past the last profile, which needs at most `r` profiles |
| `MajoritySorting.OptimisticCategory` | main.py:147-149 | A scan that stayed in range assigns one of the categories |
| `MajoritySorting.OptimisticPosition` | main.py:143-148 | The upward scan returns `OptimisticScan` from `k = 1` |
| `MajoritySorting.OptimisticSort` | main.py:126-150 | Fails exactly when some item exists and either there are no categories or the item's scan reads past the profiles. More profiles than categories rules this out. Otherwise every item, and nothing else, is mapped to the category its scan selects, which is one of the categories |
| `MajoritySorting.OptimisticIgnoresEarlierProfiles` | main.py:143-144 | Profiles before `b[k]`, and `b[0]` in particular, never affect the optimistic scan from `k` |
| `MajoritySorting.IncomparableGetsOppositeEnds` | main.py:117-149 | An item incomparable with every consulted profile gets position 0 from the pessimistic scan and the default (`categories[r-1]`) from the optimistic scan |
| `ElectreTri.PartialTableCovers` | main.py:247-251 | A finished partial table has binary values for both orientations of every item × profile pair on every criterion |
| `ElectreTri.GlobalTableCompares` | main.py:251-256 | A finished global table holds both orientations of every item × profile pair, which is what the sorting procedures look up |
| `ElectreTri.Classify` | main.py:246-256 | The run succeeds when every tag is valid, the weights do not sum to 0, and there is at least one category and more profiles than categories. When some item × profile pair exists, a bad tag fails with `InvalidDirection`; with all tags valid, a zero weight total fails with `ZeroDivision`. On success: the partial table has exactly one layer per criterion and each layer is that criterion's partial layer; the global table is built from it and holds every pair the sorters look up, each index in [0, 1] when the weights are non-negative; and every item, and nothing else, gets `categories[PessimisticIndex]` in the pessimistic map and the category its optimistic scan selects in the optimistic map |

## Left out

- Reading the criteria, weights, profiles and items from spreadsheets
  (`get_criteres_poids`, `get_profils`) and writing the assignments out
  (`to_excel`, main.py:152-210): file I/O, outside the core.
- The command-line parsing and file-existence checks of the main block
  (main.py:212-229): I/O. The threshold, categories and data enter as
  parameters.
- Re-sorting profiles by name, descending, and categories ascending
  (main.py:243-244) is not modelled. The sorters take both lists in the order
  given, and `ElectreTri.Classify` assumes the caller has already ordered them.
- Floating-point arithmetic: weights, evaluations and indices are exact reals,
  so rounding in the weighted sums and the division is not modelled.
- `PartialConcordance.CriterionConcordance` has no NaN input. An empty
  spreadsheet cell is read as NaN. Every comparison with NaN is false, so the
  source then stores `(0, 0)`, and "at least one value is 1" does not hold for
  such data.
- The order in which the result dictionaries list their items is not
  modelled, only their keys and values.
- `GlobalConcordance.BuildGlobalTable` reads the item and profile dictionaries
  from module-level variables in the source. Here they are parameters.
- `GlobalConcordance.BuildGlobalTable` requires `n <= |w|` and partial values
  for every pair (`Covers`). The source raises `IndexError` or `KeyError`
  there; the model rules those crashes out by precondition.
- `PartialConcordance.BuildPartialTable` requires every vector to have one
  value per criterion (`Dimensioned`). The source raises `IndexError` only
  when such a vector is actually read.
- `PartialConcordance.BuildPartialTable` requires item and profile names to be
  disjoint. With a shared name the source would merge two rows of the same
  table; that aliasing is not modelled.
- `GlobalConcordance.BuildGlobalTable` also requires disjoint names, for the
  same reason.
- `MajoritySorting.PessimisticSort` requires the global table to hold every
  pair it consults. A missing entry is a `KeyError` in the source.
- `MajoritySorting.OptimisticSort` requires the same; a missing entry is a
  `KeyError` in the source.
- `ElectreTri.Classify` requires `|criteria| <= |weights|` and one value per
  criterion in each vector, as the two builders above do. Its postcondition
  states a sufficient condition for success and the errors of the concordance
  stages. It does not restate the exact failure conditions of the two sorters;
  those are in `MajoritySorting.PessimisticSort` and
  `MajoritySorting.OptimisticSort`.
- The ELECTRE TRI property that the pessimistic category never exceeds the
  optimistic one is not proved, because the code as written does not
  guarantee it (see `MajoritySorting.IncomparableGetsOppositeEnds`).
