# Nonogram line-logic solver, modelled in Dafny

This project models the core of a nonogram solver written in Rust (`src/lib.rs`).
A nonogram is a grid of cells. Each row and each column carries a run list: the lengths of its
blocks of filled cells, in order. The solver works only by line logic, in four parts:

- **Line enumerator** (`DataSet::new`). For a line length and a run list, a depth-first search
  over an explicit stack of partial lines produces every line whose filled blocks are exactly the
  runs. The run list `[0]` means "no filled cell".
- **Check and filter** (`BoolLine::check`, `DataSet::update`). A candidate line is dropped once it
  contradicts a cell already known to be `Full` or `Empty`.
- **Deduction** (`CellLine::update`). A cell becomes `Full` when every remaining candidate fills
  it, and `Empty` when every candidate leaves it empty.
- **Propagation board** (`Board::new`, `finished`, `solve`, `generate_data_set`). The board keeps
  a row view and a column view of the same grid. It alternates row deduction, mirroring into the
  columns, column filtering, column deduction, mirroring into the rows and row filtering. It stops
  once every column has as many `Full` cells as its runs add up to.

The Dafny modules follow that structure:

- `Runs`: the block decomposition of a boolean line (`Blocks`). It is the specification the
  enumerator is proved against.
- `Lines`: `Cell`, `Check`, and the deduction rule `Deduce` with its properties.
- `Enumeration`: the search as recursive functions over one stack entry (`Expand`, `Starts`). It
  also proves that the search emits each line with the right blocks exactly once.
- `LineSolver`: the classes `DataSet` and `CellLine`, whose methods update their fields in place.
  It includes the stack-based search (`Search`) and the nested-loop deduction (`CellLine.Update`),
  each proved against the functions above.
- `Grids`: whole grids as values. This covers transposition, the phase functions `DeduceAll` and
  `FilterAll`, and the relations the loop keeps between grids (`AgreesWith`, `Refines`,
  `Shrinks`, `Contains`).
- `Boards`: the class `Board`. Its `rows` and `columns` are sequences of `CellLine` objects whose
  cells are updated in place. It holds the phases of one turn of the loop, the turn itself
  (`Iterate`) and the solver (`Solve`).

The main results are the following:

- The enumerator is sound, complete and free of duplicates with respect to `Blocks`.
- Filtering keeps exactly the consistent candidates, in order and with their multiplicity, and is
  idempotent.
- Deduction never contradicts a candidate it was given that agreed with the line. It is monotone,
  and it only refines known cells once the candidates agree with the line.
- The two views stay transposes of each other.
- Each turn of the loop, and the whole loop, is proved equal to a value-level reference (`Turn`,
  `Run` in `Grids`) built from the phase functions, so the model states which deductions and
  filterings happen, not only what they preserve.
- A solution of the puzzle that agreed with the board at the start still agrees when the solver
  stops. Once the stop test holds, the board's `Full` cells are exactly that solution's filled
  cells, so the solution is unique.

## Model

| member | source | states |
|---|---|---|
| Lines.Check | src/lib.rs:91-103 | the candidate passes exactly when every `Full` cell is filled in it and every `Empty` cell is empty in it; `Unknown` cells impose nothing; lines of different length are excluded, as the length assertion does |
| Lines.Deduce | src/lib.rs:38-60 | the line deduced from a candidate set: a cell becomes `Full` where every candidate fills it, `Empty` where every candidate leaves it empty, and keeps its value otherwise or when there are no candidates; the line keeps its length (its properties are the `Deduce…` lemmas below) |
| Lines.DeduceCell | src/lib.rs:38-60 | a cell becomes `Full` when all (at least one) candidates fill it, `Empty` when all leave it empty, keeps its value otherwise or when there are no candidates, and is never turned into `Unknown` |
| Lines.DeduceNothing | src/lib.rs:41-59 | with no candidates every cell keeps its value (both flags stay set, so neither branch writes) |
| Lines.DeduceMonotone | src/lib.rs:38-60 | once a non-empty set decides a cell, deducing later from any non-empty set of candidates taken from it, whatever the line looks like by then, gives the same value |
| Lines.DeduceKeeps | src/lib.rs:38-60 | deduction never contradicts a candidate that belongs to the set and agrees with the line |
| Lines.DeduceRefines | src/lib.rs:38-60 | when every candidate agrees with the line, known cells keep their value |
| LineSolver.Filter | src/lib.rs:329-336 | the kept candidates are exactly those of the old set that pass `Check`, in their old order (a subsequence), all of the line's length |
| LineSolver.FilterCounts | src/lib.rs:329-336 | the filter keeps every copy of a candidate that passes `Check` and no copy of one that fails, so a repeated candidate is kept as often as it occurs |
| LineSolver.FilterKeepsAll | src/lib.rs:329-336 | filtering a set whose candidates all pass changes nothing |
| LineSolver.FilterTwice | src/lib.rs:329-336 | filtering twice against the same cells is the same as filtering once |
| LineSolver.DataSet.Update | src/lib.rs:329-336 | the set becomes the filtered old set |
| LineSolver.CellLine.constructor | src/lib.rs:32-36 | a line of `len` unknown cells |
| LineSolver.CellLine.Update | src/lib.rs:38-60 | the two loops that fill `empties`/`fulls` and then write the cells leave the line equal to the deduction from the old line and the candidate set |
| LineSolver.FillRun | src/lib.rs:317-320 | the copy has exactly the `r` cells from `i` on set and every other cell as in the original |
| LineSolver.PushStarts | src/lib.rs:316-323 | after pushing one entry per start, the stack owes the lines of every start, last start first, in front of what it owed before; its measure grows by exactly the starts' measure |
| LineSolver.Search | src/lib.rs:303-326 | the stack search returns the recursive enumeration, so it returns exactly the lines of `len` cells whose blocks are the runs, each once, and none when the runs cannot fit |
| LineSolver.Arrangements | src/lib.rs:293-327 | the starting candidates of one run list, as values: the empty line for `[0]`, the stack search's lines otherwise; every one has the line's length (exactness is `ArrangementsExact`) |
| LineSolver.ArrangementsExact | src/lib.rs:293-327 | the starting candidates of a run list (the empty line for `[0]`, the search's lines otherwise) are exactly the lines of `len` cells with the required blocks, each once, and none when the runs cannot fit |
| LineSolver.DataSet.constructor | src/lib.rs:293-327 | `[0]` gives the single empty line; otherwise the set is the search result; either way it holds the arrangements of the run list, so it lists exactly the lines with the required blocks, without duplicates |
| Enumeration.Expand | src/lib.rs:306-324 | the lines a stack entry contributes, in the order the search emits them: the entry's line once every run is placed, nothing at the end of the line with runs left, otherwise the lines of its start range; every line has the line's length (exactness is `ExpandExact`) |
| Enumeration.Starts | src/lib.rs:316-323 | the lines of the children pushed for starts `i..=len - r`, last start first as the stack pops them; every line has the line's length (exactness is `StartsExact`) |
| Enumeration.SumRequired | src/lib.rs:124 | the blocks a run list asks for add up to the sum of the run list, `[0]` included |
| Enumeration.PendingPush | src/lib.rs:322 | pushing an entry puts its lines in front of what the stack owed |
| Enumeration.PendingPop | src/lib.rs:306 | popping the top entry: its lines come first, then what the rest of the stack owes |
| Enumeration.StartsStep | src/lib.rs:316-323 | the lines of the starts from `i` on are those of the later starts followed by those of start `i` |
| Enumeration.ChildStart | src/lib.rs:316-322 | a completion of the entry pushed for start `j` has its next run starting at `j` |
| Enumeration.ChildCompletes | src/lib.rs:316-322 | soundness step: a completion of a pushed entry completes its parent |
| Enumeration.CompletesChild | src/lib.rs:316-322 | completeness step: a completion of an entry completes the entry pushed for its next run's start, and that start lies in the loop's range |
| Enumeration.StartsExact | src/lib.rs:316-323 | the lines of the starts from `i` on are exactly the completions whose next run starts in that range |
| Enumeration.ExpandExact | src/lib.rs:306-324 | the lines emitted for an entry are exactly its completions: the decided cells kept and the remaining runs placed after them |
| Enumeration.StartsDistinct | src/lib.rs:316-323 | no line is emitted twice across the starts of one entry |
| Enumeration.ExpandDistinct | src/lib.rs:306-324 | no line is emitted twice for one entry |
| Enumeration.Enumerates | src/lib.rs:303-326 | from the root, every line of `len` cells with blocks equal to the runs is emitted, only those, each once, and none when the runs cannot fit |
| Runs.CountTrueIsSumOfBlocks | src/lib.rs:123-124 | a line's filled-cell count is the sum of its blocks, so a line with the required blocks has as many filled cells as its runs add up to |
| Runs.BlocksFit | src/lib.rs:316 | a line is at least as long as its runs plus one gap between each two |
| Runs.BlocksEmpty | src/lib.rs:296-301 | a line has no blocks exactly when no cell is filled, so the all-empty line is the only line for `[0]` |
| Grids.FullCount | src/lib.rs:121-132 | the number of `Full` cells of a column: at most its length, and zero exactly when no cell is `Full` |
| Grids.Complete | src/lib.rs:121-132 | the stop test on the column view: every zipped column has as many `Full` cells as its runs add up to, which needs each run list's sum to fit its column |
| Grids.FullCountBelow | src/lib.rs:121-132 | a line has at most as many `Full` cells as a candidate it agrees with has filled cells; with equal counts its `Full` cells are exactly the candidate's filled cells |
| Grids.DeduceAll | src/lib.rs:142-168 | one deduction phase on values: each line zipped with a set becomes `Deduce` of it, lines without a set are kept; the lengths are kept (its properties are `DeduceAllKeeps` and `DeduceAllRefines`) |
| Grids.FilterAll | src/lib.rs:156-158 | one filtering phase on values: each set zipped with a line becomes `Filter` of it, sets without a line are kept, and the number of sets is kept (its properties are `FilterAllFilters` and `FilterAllKeeps`) |
| Grids.DeduceAllKeeps | src/lib.rs:142-150 | a deduction phase never contradicts a solution whose lines are still candidates |
| Grids.DeduceAllRefines | src/lib.rs:160-168 | after a filtering phase a deduction phase only turns unknown cells into known ones |
| Grids.FilterAllFilters | src/lib.rs:156-158 | a filtering phase leaves only candidates that agree with their line, and only candidates that were there |
| Grids.FilterAllKeeps | src/lib.rs:174-176 | a filtering phase keeps every line of a solution that agrees with the grid |
| Grids.ShrinksFit | src/lib.rs:156-158 | sets that only lose candidates keep fitting their run lists |
| Grids.RefinesTransposed | src/lib.rs:165-167 | refinement seen in the column view is refinement of the row view |
| Grids.AgreesTransposed | src/lib.rs:147-149 | a grid agrees with the row view exactly when its columns agree with the column view |
| Grids.ListedFit | src/lib.rs:261-275 | sets listing every allowed line fit their run lists and contain every line of a grid obeying them |
| Grids.FilterAllOf | src/lib.rs:156-158 | filtering the sets one by one against the lines of the same index is the filtering phase |
| Grids.AllArrangements | src/lib.rs:261-275 | the starting sets of a family of run lists, one per run list, each holding its arrangements of the given length (see `AllArrangementsAt`, `ArrangementsListed`) |
| Grids.AllArrangementsAppend | src/lib.rs:266-273 | making the set of one more run list appends its arrangements to the sets made so far |
| Grids.AllArrangementsAt | src/lib.rs:266-273 | set `k` of the starting sets holds the arrangements of run list `k` |
| Grids.ArrangementsListed | src/lib.rs:261-275 | the starting sets list, for every run list, exactly the lines it allows |
| Grids.ArrangementsContain | src/lib.rs:261-275 | every line of a grid whose lines obey their run lists is among the starting sets |
| Grids.ColumnsOf | src/lib.rs:142-168 | two views that mirror each other are each the column view of the other |
| Grids.Turn | src/lib.rs:142-176 | one turn of the loop on values: row deduction, then stop if the columns are complete, else column filtering and column deduction, then stop if complete, else row filtering; the turn keeps every line and candidate the right length and says it stopped exactly when the columns it leaves are complete |
| Grids.Run | src/lib.rs:141-177 | at most `fuel` turns, ending with the first turn that stops; a run that stops leaves complete columns |
| Grids.TurnStops | src/lib.rs:142-154 | when the row phase completes the columns the turn stops with the deduced rows and untouched sets |
| Grids.TurnStopsLater | src/lib.rs:156-172 | when only the column phase completes the columns the turn stops with the filtered column sets and the rows mirrored back, the row sets untouched |
| Grids.TurnGoesOn | src/lib.rs:156-176 | when neither phase completes the columns the turn also filters the row sets against the new rows and goes on |
| Grids.RunTurn | src/lib.rs:141-177 | after one more turn a run either ends at that turn's state or continues from it with one turn less |
| Boards.NewLines | src/lib.rs:114-115 | `count` new, distinct lines of `len` cells, all `Unknown` |
| Boards.NewDataSet | src/lib.rs:266-273 | one new set holding the arrangements of its run list |
| Boards.NewDataSets | src/lib.rs:266-273 | one new, distinct set per run list (the zip of limits to sets), holding, in order, the arrangements of each run list |
| Boards.FilterEach | src/lib.rs:174-176 | set `k` is filtered against line `k` while both exist; sets without a line are untouched |
| Boards.FilterSets | src/lib.rs:156-158 | the sets become the filtering phase of their old contents against the lines |
| Boards.Board.constructor | src/lib.rs:107-119 | `height` rows of `width` unknown cells and `width` columns of `height` unknown cells, all distinct objects, the two views mirrored |
| Boards.Board.MirroredCells | src/lib.rs:142-168 | on a mirrored board the column view is the transpose of the row view |
| Boards.Board.Finished | src/lib.rs:121-132 | the stop test holds exactly when every column paired with a run list has as many `Full` cells as the runs add up to; rows are not inspected |
| Boards.Board.FinishedFrom | src/lib.rs:122-129 | the scan from column `j` on succeeds exactly when every remaining paired column has the right `Full` count |
| Boards.Board.GenerateDataSet | src/lib.rs:261-275 | new, distinct row and column sets holding the arrangements of every row and column run list, so they fit their run lists |
| Boards.Board.CopyRow | src/lib.rs:147-149 | copying row `i` into the columns restores the mirror and leaves every row as it was |
| Boards.Board.CopyColumn | src/lib.rs:165-167 | copying column `j` into the rows restores the mirror and leaves every column as it was |
| Boards.Board.UpdateRows | src/lib.rs:142-150 | the row phase: each row paired with a set becomes its deduction; the views stay mirrored |
| Boards.Board.UpdateColumns | src/lib.rs:160-168 | the column phase: each column paired with a set becomes its deduction; the views stay mirrored |
| Boards.Board.FinishedSolves | src/lib.rs:121-132 | on a finished board a solution that agrees with it is exactly what it shows: a cell is `Full` precisely where the solution fills it |
| Boards.Board.FinishedUnique | src/lib.rs:121-132 | a finished board admits at most one agreeing solution |
| Boards.Board.RowTurn | src/lib.rs:142-150 | the row phase keeps the board and sets consistent and changes no set |
| Boards.Board.FilterColumns | src/lib.rs:156-158 | the column sets become their filtering against the columns; board and row sets unchanged |
| Boards.Board.ColumnPhase | src/lib.rs:160-168 | the column phase keeps the board and sets consistent and changes no set |
| Boards.Board.ColumnTurn | src/lib.rs:156-168 | column filtering followed by the column phase |
| Boards.Board.FilterRows | src/lib.rs:174-176 | the row sets become their filtering against the rows; the board and the stop test unchanged |
| Boards.Board.RowStep | src/lib.rs:142-150 | the rows become the row phase's deduction from the row sets, no set changes, an agreeing solution stays agreeing and, when the row sets agree with the rows, no known cell changes |
| Boards.Board.ColumnStep | src/lib.rs:156-168 | the column sets become their filtering against the columns and then the columns their deduction from the filtered sets; the row sets are untouched, an agreeing solution stays agreeing and a candidate, and no known cell changes |
| Boards.Board.RowFilterStep | src/lib.rs:174-176 | the row sets become their filtering against the rows, so they only shrink and agree with the rows, and keep every row of an agreeing solution; the board is untouched |
| Boards.Board.LoopShaped | src/lib.rs:121-168 | on a consistent board the state has the board's shape, each view is the column view of the other, and the stop test is the completeness of the column view |
| Boards.Board.Iterate | src/lib.rs:142-176 | one turn: the new rows and sets and the result are exactly those of `Turn` from the old ones; the result is the stop test; the sets only shrink; an agreeing solution stays agreeing and a candidate; if the loop goes on the row sets agree with the rows; once they agree no known cell changes |
| Boards.Board.Start | src/lib.rs:139 | the sets are the arrangements of every row and column run list; the board stays consistent, and the sets contain every line of an agreeing solution |
| Boards.Board.Propagate | src/lib.rs:141-177 | the loop ends in the state and with the result of `Run` of `fuel` turns from the state it started in; the result is the stop test; an agreeing solution stays agreeing |
| Boards.Board.SolveUnfinished | src/lib.rs:139-177 | on an unfinished board the rows and result are those of `Run` of `fuel` turns from the rows and the arrangements of every run list |
| Boards.Board.Solve | src/lib.rs:134-178 | on a finished board nothing changes; otherwise the rows and the result are those of `Run` of `fuel` turns from the board and the arrangements of every run list; the result is the stop test; an agreeing solution still agrees at the end, and when the solver stops the board's `Full` cells are exactly that solution's filled cells |

## Left out

- Printing (`fmt::Display` for lines and the board), `solve_and_print` with its timing and
  output, and `src/main.rs` with its puzzle literal are not part of this model. They do no
  solving of their own.
- Boards.Board.Solve: the source loop has no bound and can spin forever on puzzles that line
  logic cannot finish. The model runs at most `fuel` turns and returns `false` when the fuel runs
  out first. Only its `true` result means what the source's exit means.
- Boards.Board.Propagate: requires an unfinished board, because the source only reaches the loop
  after the early return.
- LineSolver.DataSet.constructor: requires every run to fit the line. A longer run makes
  `len - limit[index]` underflow and panic once the search reaches it. When the search never
  reaches it (a stack entry with `begin == len`, or an empty start range before it), the source
  returns no line; the model excludes that case too. It also requires the runs to be positive
  unless the list is `[0]`. Zero runs beside other runs are not given a meaning by the source and
  are outside the model.
- LineSolver.CellLine.Update: requires every candidate to have the line's length. A longer
  candidate indexes out of bounds in the source. A shorter one, which the solver never produces,
  constrains only the cells it covers: past its end the source lets the other candidates decide
  the cell, while `Deduce` would keep the cell as it was.
- Boards.Board.Finished: the sum of a column's runs is an unbounded `nat`. The source sums in
  `u32`, which panics or wraps on overflow.
- Run lengths are `nat` rather than `u32` cast to `usize`.
- The solver's loop state is modelled by `rows`, `columns` and the set sequences, with the board
  consistency invariant (`Loop`) stated between turns. The ghost parameter `sol` of the loop
  methods exists only to state the preservation properties.
- The solver has no single-candidate shortcut in filtering or deduction.
- The solver has no "stalled", "invalid constraint" or "unsatisfiable" outcome; it either
  finishes or keeps turning.
- `Board::new` takes the height and width separately rather than deriving them from the run lists.
- Deducing from an empty candidate set leaves the line unchanged: both flags stay set, and the
  code writes nothing when both are set.
