# AthenaUI post-processing and launch menus, modelled in Dafny

AthenaUI is a set of Python tools around the Athena++ magnetohydrodynamics
code. This project models its core and proves properties of the model:

- **Two-point autocorrelation pipeline** (`src/post/correlation.py`):
  - *Snapshot selection.* Keep the `.athdf` snapshots whose time lies in
    `[t1, t2]`, sort them by time, and report the first and last time.
  - *Per-snapshot cube.* Reverse the field's axis order from (z, y, x) to
    (x, y, z). Compute the `"same"`-mode autocorrelation. For velocity and
    magnetic field, sum it over the three components; the magnetic field
    falls back from `Bcc1..3` to `B1..3`. Divide by the value at
    `shape // 2`.
  - *Mean.* Take the elementwise mean over the snapshots that produced a cube.
  - *Plot geometry.* Model which indices and extents feed the 2D cuts and 1D
    profiles.
- **Preprocessing** (`src/post/preprocess.py`):
  - the `qshear` parser for the `athinput` file;
  - the box lengths from the `RootGridX*` ranges;
  - the snapshot filter that stores density, velocity and magnetic field
    side by side.
- **History plots** (`src/post/hst.py`): the variable names in the `.hst`
  header, the data column each name is drawn from, and the upper limit of
  the linear axis.
- **The four terminal menus** (`src/tui/cor.py`, `run.py`, `rst.py`,
  `slc.py`):
  - Each key loop is a state machine over an abstract key. Each menu has a
    `State` datatype, a pure `Step` function, a `Drive` function that applies
    `Step` to a key sequence, and a `Run` method whose loop is proved to
    compute `Drive`.
  - The pure helpers are modelled too: display width, output-format
    discovery, command-argument building, and the colour-range rule of the
    slice plots.

`scipy.signal.correlate(a, a, mode='same')` is described by its textbook
definition. It is a zero-padded lag sum, with zero lag at index `N // 2` on
every axis (`Autocorrelation.Autocorrelate`). Field values are `real`.

Reading a snapshot (`athena_read.athdf`) is a parameter
`read: string -> Option<Snapshot>`. `None` stands for a file that fails to
read. A `glob` result is a given sequence of names.

Three behaviours of the code that are easy to miss, kept as written:

- **A constant field does not give an all-ones cube.** The lag sum is
  zero-padded, so entries away from the centre see fewer overlapping cells
  (`AutocorrelationFacts.ConstantFieldNotAllOnes`).
- **Equal times have no fixed order.** `np.argsort` does not promise a
  stable order for equal times. The model does not fix one; instead it proves
  that the mean does not depend on the order of the cubes
  (`Correlation.MeanOrderIndependent`).
- **All cubes are held at once.** `calculate_correlation` keeps every cube
  in a list and then averages, and the model does the same.

Other behaviour kept as written:

- `find_files` returns a bare `[]` when the name pattern matches nothing.
  This becomes the separate `NoMatch` outcome.
- Escape while a text field is edited does not leave the `cor`, `run` or
  `rst` menu. It ends editing, and the top of the loop starts editing again
  at once.
- In `run.py`, Enter on "start" with an empty case name shows an error and
  swallows the next key (`RunMenu.EmptyNameStays`).
- Ctrl+C leaves every menu at any key, including while a text field is
  edited or the empty-name message waits. `getch` raises
  `KeyboardInterrupt`, which the script's top level catches, and nothing
  is launched. It is the `CtrlC` key, which `Step` turns into `Interrupt`
  and `Drive` into `Interrupted` (`CorMenu.CtrlCEndsMenu` and its
  siblings).

## Model

| member | source | states |
|---|---|---|
| Arrays3.Transpose | src/post/correlation.py:84 | the `(2,1,0)` transpose has the reversed shape and `out[i][j][k] == in[k][j][i]` |
| Arrays3.TransposeInvolution | src/post/correlation.py:96-98 | transposing twice gives back the original cube |
| Arrays3.Add3 | src/post/correlation.py:104 | the sum of three equal-shaped cubes is taken entry by entry |
| Arrays3.Divide | src/post/correlation.py:87 | dividing a cube by a non-zero scalar divides every entry and keeps the shape |
| Arrays3.CenterInBox | src/post/correlation.py:87 | the index `shape // 2` lies inside every non-empty box |
| LagSums.TotalLinear | src/post/correlation.py:104 | a triple sum whose terms are sums of three terms is the sum of the three triple sums |
| LagSums.TotalNonnegative | src/post/correlation.py:85 | a sum of non-negative terms is non-negative, and it is zero only when every term is |
| LagSums.TotalOverlap | src/post/correlation.py:85 | summing a constant over the positions where a shifted copy overlaps the box gives the constant times the per-axis overlaps |
| Autocorrelation.Autocorrelate | src/post/correlation.py:85 | the result has the input's shape, and each entry is the zero-padded lag sum, with zero lag at `N // 2` |
| Autocorrelation.VectorAutocorrelate | src/post/correlation.py:100-104 | the vector cube is, entry by entry, the sum of the three per-component autocorrelations |
| Autocorrelation.Normalise | src/post/correlation.py:87 | the division is finite exactly when the centre is non-zero; then the centre is 1 and every entry is divided by the old centre; otherwise the whole cube is NaN |
| Autocorrelation.DividedCentreIsOne | src/post/correlation.py:106 | dividing by a non-zero centre makes the centre exactly 1 |
| AutocorrelationFacts.CentreIsZeroLag | src/post/correlation.py:87 | index `N // 2` is lag 0 on each axis |
| AutocorrelationFacts.AutocorrelateOfZero | src/post/correlation.py:85 | an all-zero field has an all-zero autocorrelation |
| AutocorrelationFacts.EnergySum | src/post/correlation.py:85 | the zero-lag sum is non-negative, and it is zero exactly when the field is all zero |
| AutocorrelationFacts.CentreIsZeroLagSum | src/post/correlation.py:85-87 | the centre entry of the autocorrelation is the zero-lag sum |
| AutocorrelationFacts.CentreIsEnergy | src/post/correlation.py:85-87 | the centre is non-negative, and it is zero exactly when the field is all zero |
| AutocorrelationFacts.VectorIsDotProduct | src/post/correlation.py:100-104 | each entry of the vector cube is the lag sum of the component-wise dot product |
| AutocorrelationFacts.DotSumSplits | src/post/correlation.py:120-124 | the lag sum of a dot product splits into three per-component lag sums |
| AutocorrelationFacts.VectorCentreIsEnergy | src/post/correlation.py:104-106 | the vector centre is non-negative, and it is zero exactly when all three components are all zero |
| AutocorrelationFacts.VectorCentre | src/post/correlation.py:139-145 | the vector centre is the sum of the three components' zero-lag sums |
| AutocorrelationFacts.NormaliseUndefinedIffZero | src/post/correlation.py:85-87 | a scalar cube normalises to NaN exactly when the field is all zero |
| AutocorrelationFacts.VectorNormaliseUndefinedIffZero | src/post/correlation.py:104-106 | a vector cube normalises to NaN exactly when every component is all zero |
| AutocorrelationFacts.LagSumOfConstant | src/post/correlation.py:85 | for a constant field, the lag sum is `c*c` times the per-axis overlaps |
| AutocorrelationFacts.AutocorrelateOfConstant | src/post/correlation.py:85 | for a constant field, each entry is `c*c` times the overlaps of its lag |
| AutocorrelationFacts.CentreOfConstant | src/post/correlation.py:85-87 | for a constant field, the centre is `c*c` times the number of cells |
| AutocorrelationFacts.NormalisedConstantIsFinite | src/post/correlation.py:87 | a non-zero constant field normalises to a finite cube |
| AutocorrelationFacts.ConstantFieldNotAllOnes | src/post/correlation.py:85-87 | for a non-zero constant field with at least two cells along x, the normalised entry at `x = 0` is not 1 |
| Correlation.Kept | src/post/correlation.py:42-52 | a file is kept exactly when it reads and `t1 <= time` and (`t2` is None or `time <= t2`) |
| Correlation.KeptAppend | src/post/correlation.py:48-50 | one more file is appended exactly when it is selected, and an unreadable one is skipped |
| Correlation.TimeOrder | src/post/correlation.py:55 | comparing snapshot times is a total preorder on file names |
| Correlation.SelectFiles | src/post/correlation.py:39-52 | the loop returns the kept files in glob order, together with their times |
| Correlation.SortedByTime | src/post/correlation.py:55-56 | a list sorted by `TimeOrder` has non-decreasing times |
| Correlation.SortByTime | src/post/correlation.py:55-64 | the result is a permutation of the input with non-decreasing times; `t_start` and `t_end` are the first and last times, or 0 when empty |
| Correlation.FindFiles | src/post/correlation.py:22-64 | `NoMatch` (the bare `[]`) exactly when nothing matches; otherwise the kept files, as a permutation in time order, with the first and last times or 0/0 |
| Correlation.FoundFilesSelected | src/post/correlation.py:42-52 | every returned file is a match in the window, and every match in the window is returned |
| Correlation.Components | src/post/correlation.py:92-98 | present only when the three named fields are present with one shape (no broadcasting: see Left out) |
| Correlation.MagneticNames | src/post/correlation.py:109-148 | `Bcc1..3` when all are present; else `B1..3` when all of those are; else no names |
| Correlation.MagneticFallback | src/post/correlation.py:109-148 | the magnetic cube comes from `Bcc*` first, from `B*` only when a `Bcc*` field is missing, and there is none when neither set is complete |
| Correlation.VectorCube | src/post/correlation.py:92-107 | a vector cube exists only when all three component names are keys of the snapshot; its centre is stated by `VectorCubeCentred` |
| Correlation.SnapshotCube | src/post/correlation.py:80-148 | a variable other than `rho`, `vel` or `B` gives no cube; a `rho` cube needs `rho`, a `vel` cube needs `vel1..3`; `SnapshotCubeCentred` states its centre |
| Correlation.FileCube | src/post/correlation.py:78-151 | a file that fails to read contributes no cube |
| Correlation.Cubes | src/post/correlation.py:71-151 | `all_correlations` has at most one cube per file; `CubesStep` and `CubesCentred` state what each one is |
| Correlation.MeanOf | src/post/correlation.py:153-158 | None for no cubes; inhomogeneous shapes raise; any NaN cube gives a NaN mean; otherwise each entry of the mean is the entry sum divided by the number of cubes |
| Correlation.CollectCubes | src/post/correlation.py:71-151 | the loop returns the cube of every file that produces one, in file order |
| Correlation.CubesStep | src/post/correlation.py:73-151 | one more file appends its cube, or nothing when it produces none |
| Correlation.CalculateCorrelation | src/post/correlation.py:66-158 | the result is the mean of exactly the cubes produced; None on empty input |
| Correlation.NormaliseCentred | src/post/correlation.py:87 | a finite normalised cube has centre 1 |
| Correlation.VectorCubeCentred | src/post/correlation.py:104-106 | every vector cube produced has centre 1 or is NaN |
| Correlation.SnapshotCubeCentred | src/post/correlation.py:80-148 | every cube produced for `rho`, `vel` or `B` has centre 1 or is NaN |
| Correlation.CubesCentred | src/post/correlation.py:71-151 | every collected cube has centre 1 or is NaN |
| Correlation.CubesValid | src/post/correlation.py:71-151 | every collected cube is well-formed |
| Correlation.SumOfCentres | src/post/correlation.py:155 | the centre entries of `n` centred cubes add up to `n` |
| Correlation.MeanCentreIsOne | src/post/correlation.py:153-156 | when the mean is defined and finite, its centre is exactly 1 |
| Correlation.MeanOfCentred | src/post/correlation.py:155 | the mean of centred cubes has centre 1 |
| Correlation.MeanAtCentre | src/post/correlation.py:155 | the centre of the mean is the centre sum over the number of cubes |
| Correlation.FailedFileIgnored | src/post/correlation.py:147-151 | a file that fails to read, or lacks its fields, changes neither the cubes nor their count |
| Correlation.ProducedFileAppended | src/post/correlation.py:88 | a file that produces a cube appends exactly that cube |
| Correlation.UnknownVariableGivesNone | src/post/correlation.py:80-158 | for a variable other than `rho`, `vel` or `B`, no cube is produced and the result is None |
| Correlation.SumAtPermutation | src/post/correlation.py:155 | the entry sum does not depend on the order of the cubes |
| Correlation.MeanOrderIndependent | src/post/correlation.py:55-56 | any reordering of the cubes, such as an unstable sort of equal times, gives the same mean |
| Slices.PanelAxesDistinct | src/post/correlation.py:188-208 | the cut axis, the row axis and the column axis of each panel are three different axes |
| Slices.Place | src/post/correlation.py:190 | the index triple of a panel pixel holds the cut axis at its centre |
| Slices.Image | src/post/correlation.py:190-206 | the matrix handed to `imshow` is the central cut (transposed for z), with entry `[r][c]` taken at the row index `r` and column index `c` |
| Slices.PlaceInBox | src/post/correlation.py:190-204 | every pixel of a panel reads an index inside the box |
| Slices.PanelsAsWrittenGeometry | src/post/correlation.py:188-208 | as written: cuts x, y, z at the centre; extents are `±L/2` of the labelled axes; only the z cut is transposed, with its extents swapped |
| Slices.PanelsAsWrittenSwapLabels | src/post/correlation.py:188-208 | as written, every panel draws its `ylabel` axis horizontally and its `xlabel` axis vertically |
| Slices.PanelsAsWritten | src/post/correlation.py:188-208 | the three panels as written; `PanelsAsWrittenGeometry` and `PanelsAsWrittenSwapLabels` state their cuts, extents and labels |
| Slices.PanelsLabelled | src/post/correlation.py:188-208 | the corrected panels cut the same planes, and each label and extent names the axis actually drawn there |
| Slices.Panels | src/post/correlation.py:188-208 | the corrected panels; `PanelsLabelled` states that each label names the axis drawn there |
| Slices.Profile | src/post/correlation.py:235-245 | the profile along an axis has `N - N//2` samples; sample `d` is taken `d` cells past the centre |
| Slices.ProfileAt | src/post/correlation.py:235-245 | a profile sample sits at the centre on the other two axes |
| Slices.Along | src/post/correlation.py:225-245 | the index triple runs along one axis and is at the centre on the others; it is inside the box for every index of that axis |
| Slices.Linspace | src/post/correlation.py:234 | `np.linspace` gives `num` points from `start`, ending exactly at `stop` |
| Slices.CoordinatesAsWritten | src/post/correlation.py:234 | `np.linspace(0, L/2, N//2)`: `N//2` coordinates, from 0 and ending at `L/2` once there are at least two |
| Slices.ProfileLengthsAgree | src/post/correlation.py:234-245 | as written, for any root grid size `N`, a profile and its `N//2` coordinates have equal lengths exactly when `N//2` is the number of samples from the centre on |
| Slices.ProfileLengthsAgreeIffEven | src/post/correlation.py:234-245 | as written, on a root-resolution cube (`N` the cube's size along the axis), a profile and its coordinates have equal lengths exactly when `N` is even |
| Slices.OddAxisProfileMismatch | src/post/correlation.py:234-236 | for a root-resolution cube with 3 cells along the profile axis (`N = 3`), `Profile` has 2 samples but the coordinates as written have 1 |
| Slices.CoordinatesAsWrittenStretched | src/post/correlation.py:234 | for `N = 4`, `L = 4`, the coordinates are `[0, 2]`, yet the second sample stands for a separation of 1 |
| Slices.Coordinates | src/post/correlation.py:234-245 | the corrected coordinates: one per profile sample, starting at 0 |
| Slices.CoordinatesMatchProfile | src/post/correlation.py:234-245 | the corrected coordinates have one entry per sample, each equal to the separation that sample stands for |
| Preprocess.ValueText | src/post/preprocess.py:68 | a value exists exactly when the line holds `=`; it holds no `=` or `#` and has no surrounding whitespace |
| Preprocess.ValueTextOfAssignment | src/post/preprocess.py:68 | for `key=value#comment`, the value text is the stripped `value` |
| Preprocess.GetQshear | src/post/preprocess.py:61-77 | None when no line containing `qshear` follows a line containing `<orbital_advection>` (the flag is never reset); otherwise the value text of the first such line |
| Preprocess.GetBox | src/post/preprocess.py:105-124 | present exactly when the three `RootGridX*` entries exist with three values each; then `L[i] = max - min` of the first two values |
| Preprocess.GetBoxIgnoresRatio | src/post/preprocess.py:105-107 | the last entry of a `RootGridX*` array (the ratio) does not affect the box |
| Preprocess.StoredFiles | src/post/preprocess.py:165-204 | a file is stored exactly when it reads, its time is in the window, and all seven fields are present |
| Preprocess.AlignedAppend | src/post/preprocess.py:196-200 | appending one snapshot to all four lists keeps them aligned with the stored files |
| Preprocess.StoredFields | src/post/preprocess.py:165-200 | `rhos`, `Vs`, `Bs` and `times` have equal length, and index `i` of each comes from stored file `i` |
| Preprocess.StoredFieldsAppend | src/post/preprocess.py:171-204 | one more file extends the four lists by one entry exactly when it is stored |
| Preprocess.Visit | src/post/preprocess.py:171-204 | one pass of the loop appends the snapshot's fields to all four lists exactly when the file is stored, and leaves them otherwise |
| Preprocess.StoreAll | src/post/preprocess.py:159-208 | the loop builds exactly `StoredFields` of the files |
| Preprocess.Output2Turbulence | src/post/preprocess.py:153-212 | None exactly when no snapshot survives (including no match); otherwise the fields of the stored files in name order |
| Preprocess.StoredFieldsAligned | src/post/preprocess.py:197-200 | the density, velocity, magnetic field and time at index `i` all come from the same file |
| Preprocess.StoredInNameOrder | src/post/preprocess.py:165 | filtering a name-sorted list keeps it name-sorted |
| Preprocess.StoredFilesSortedByName | src/post/preprocess.py:153 | the snapshots are stored in file-name order, not time order |
| Preprocess.NoMagneticFallback | src/post/preprocess.py:188-204 | a snapshot without `Bcc1` is never stored, whatever `B1..3` it holds |
| History.HeaderItems | src/post/hst.py:42-46 | present exactly when the file has at least two lines; the items come from the second line with whitespace and then `#`/space stripped, and each item is non-empty and space-free |
| History.AfterEquals | src/post/hst.py:51-53 | the text after the first `=` of an item |
| History.VarNames | src/post/hst.py:48-54 | the first item never yields a name; the names are `Names` of the later items |
| History.NamesCount | src/post/hst.py:51-54 | exactly one name per item holding `=` |
| History.NamesFromItems | src/post/hst.py:51-54 | every name is the text after the first `=` of some item holding `=` |
| History.NamesAppend | src/post/hst.py:52-54 | an item without `=` adds nothing, and one with `=` appends its value |
| History.Names | src/post/hst.py:50-54 | at most one name per item; `NamesCount` and `NamesFromItems` say which |
| History.Column | src/post/hst.py:65 | `data[:, c]` holds entry `c` of every row |
| History.DropTime | src/post/hst.py:36 | `data[:, 1:]` drops the first entry of every row |
| History.VariableColumn | src/post/hst.py:33-36 | every row is its time (column 0) followed by its row of `var_data_list`, and column `i` of `var_data_list` is data column `i + 1` |
| History.LinearUpper | src/post/hst.py:98-99 | the limit is 1.2 times the largest value at indices `len//2 .. len-1` |
| History.LinearUpperBounds | src/post/hst.py:98 | that maximum is one of the values of the second half, and at least each of them |
| History.PlotFor | src/post/hst.py:64-99 | plot `i` draws column `i + 1` against the time column; plot 0 has no linear limit and later plots have `LinearUpper` |
| History.Plots | src/post/hst.py:64-121 | complete exactly when every name has a column; then one plot per name, otherwise the `width - 1` plots saved before the `IndexError`; plot `i` is `PlotOf` name `i` |
| History.HistoryPlots | src/post/hst.py:26-121 | None exactly when the table has fewer than two rows or columns (`data[:, 0]` raises on the one-dimensional array `np.loadtxt` returns) or the header line is missing; otherwise the plots saved, one per header name up to the first name without a column, plot `i` being `PlotOf` name `i`: its name, the time column, data column `i + 1` and its linear limit |
| Menus.KeyOf | src/tui/cor.py:218-354 | a `getch` code is Enter exactly when it is 10, Escape exactly when 27, Backspace exactly when `KEY_BACKSPACE`, 127 or 8; it is an other-key `Code` exactly when no comparison names it, and then keeps its code; it is never `CtrlC`, which raises instead of returning a code |
| Menus.Wrap | src/tui/cor.py:325-327 | Python's `% n` keeps the cursor in `0 .. n-1` and wraps −1 to the end and `n` to 0 |
| Menus.Previous | src/tui/cor.py:325 | Up moves to the previous option, and from the first to the last |
| Menus.Next | src/tui/cor.py:327 | Down moves to the next option, and from the last to the first |
| Menus.PreviousNextInverse | src/tui/cor.py:324-327 | Down undoes Up, and Up undoes Down |
| Menus.EditText | src/tui/cor.py:239-254 | Backspace drops the last character (nothing on empty); codes 32..126 append their character; other keys change nothing |
| Menus.EditKeepsPrintable | src/tui/cor.py:252-254 | a field holds only printable ASCII after any key |
| Menus.TypeThenDelete | src/tui/cor.py:239-254 | typing a character and then Backspace restores the field |
| Menus.ValidWallTimeValue | src/tui/run.py:245-251 | a wall time the menu stores reads back with `int` as its number of hours |
| Menus.WallTimeUpOf | src/tui/run.py:265-268 | Right on `str(h)` gives `str(h + 1)` |
| Menus.WallTimeDownOf | src/tui/run.py:245-249 | Left on `str(h)` gives `str(h - 1)`, and `str(1)` stays |
| Menus.WallTimeUp | src/tui/run.py:265-270 | Right on the wall time; `WallTimeUpOf` states it on `str(h)` |
| Menus.WallTimeDown | src/tui/run.py:245-251 | Left on the wall time; `WallTimeDownOf` and `WallTimeFloor` state it |
| Menus.WallTimeValid | src/tui/run.py:245-270 | Left and Right keep the wall time a whole number of at least 1 hour |
| Menus.DefaultWallTime | src/tui/run.py:34 | the default `"24"` reads as 24 hours |
| Menus.WallTimeUpDown | src/tui/rst.py:244-267 | Right then Left restores the wall time |
| Menus.DisplayWidth | src/tui/cor.py:8-16 | the width is the length plus the number of U+4E00..U+9FFF characters, so it lies between the length and twice the length |
| Menus.WideCountConcat | src/tui/cor.py:11-15 | the width of two texts side by side is the sum of their widths |
| Menus.Formats | src/tui/cor.py:26-31 | every format is listed once, and each is the second dot field of some name with at least four fields |
| Menus.FormatsComplete | src/tui/cor.py:26-31 | each such name's format is listed |
| Menus.FormatsAppend | src/tui/cor.py:28-31 | one more name appends its format at the end unless it is already listed |
| Menus.FormatsPrefix | src/tui/cor.py:26-31 | later names only add at the end, so the list keeps first-seen order |
| Menus.FormatOf | src/tui/cor.py:27-29 | the second dot field of a name of at least four fields; `Formats` and `FormatsComplete` state how it is used |
| Menus.OutputFormats | src/tui/cor.py:18-35 | the loop returns `Formats`, or `["out2"]` when there is none; never empty |
| CorMenu.Initial | src/tui/cor.py:53-70 | the first format (or `out2`), `B`, empty times, the cursor on option 0; the invariant holds |
| CorMenu.AutoEdit | src/tui/cor.py:73-83 | the top of the loop only starts editing: `t1` when the cursor is on option 2, `t2` on option 3, and nothing else changes |
| CorMenu.EditingKey | src/tui/cor.py:218-263 | while editing, only the cursor and the text change; Enter moves on; keys other than Enter, Up and Down keep the option |
| CorMenu.NormalKey | src/tui/cor.py:319-355 | the invariant is kept; it launches exactly on Enter at option 4, quits exactly on Escape and interrupts exactly on Ctrl+C |
| CorMenu.Step | src/tui/cor.py:72-355 | the cursor stays in 0..4 and each cycled value matches its index; it launches exactly on Enter at option 4; Escape quits except on a time field; Ctrl+C interrupts in every state |
| CorMenu.NormalStep | src/tui/cor.py:319-355 | off the time fields, one pass only handles the key |
| CorMenu.VariableCycleInverse | src/tui/cor.py:333-343 | on the quantity, Right then Left and Left then Right restore the state |
| CorMenu.VariableCycle | src/tui/cor.py:341-343 | Right cycles the quantity rho, vel, B, rho |
| CorMenu.FormatCycleInverse | src/tui/cor.py:329-340 | on the format, Right then Left restores the state |
| CorMenu.StartTimeEdited | src/tui/cor.py:239-254 | on the start time, a printable key or Backspace edits `t1` |
| CorMenu.StartTimeEnterMovesOn | src/tui/cor.py:218-223 | Enter on `t1` moves to option 3, and the next key already edits `t2` |
| CorMenu.EndTimeEnterMovesOn | src/tui/cor.py:273-278 | Enter on `t2` moves to option 4 |
| CorMenu.EscapeWhileEditing | src/tui/cor.py:224-228 | Escape while editing `t1` only stops editing, and the next key edits again |
| CorMenu.CommandArgs | src/tui/cor.py:369-375 | `--outn=` and `--var=`, then `--t1=` and `--t2=` only when set, joined by single spaces |
| CorMenu.CommandArgsWords | src/tui/cor.py:369-375 | with space-free values, splitting the argument string on spaces gives back the words |
| CorMenu.Drive | src/tui/cor.py:72-375 | `Step` applied to each key until a launch or a quit: a launch is at option 4, needs an Enter and carries the arguments of its state; quitting needs an Escape and an interrupt a Ctrl+C; the invariant holds |
| CorMenu.DriveAppend | src/tui/cor.py:72-355 | more keys continue a waiting menu from the state reached, and change nothing after a launch or a quit |
| CorMenu.Run | src/tui/cor.py:72-375 | the loop's outcome is exactly `Drive` of the keys from `Initial` |
| CorMenu.CtrlCEndsMenu | src/tui/cor.py:389-393 | Ctrl+C ends the menu from every state, a time field being edited included, without a launch |
| RunMenu.Initial | src/tui/run.py:30-50 | the defaults are isothermal, HLLD, FP64, `"24"` and an empty case name, and the invariant holds |
| RunMenu.SetEos | src/tui/run.py:236-241 | choosing isothermal forces HLLD; choosing adiabatic leaves the solver alone |
| RunMenu.Cycle | src/tui/run.py:232-270 | Left/Right keep the invariant and the option; on the wall time they apply `WallTimeUp`/`WallTimeDown` |
| RunMenu.EditingKey | src/tui/run.py:177-222 | a key while the case name is edited keeps the invariant |
| RunMenu.NormalKey | src/tui/run.py:228-285 | it launches exactly on Enter at option 5 with a non-empty case name, quits exactly on Escape and interrupts exactly on Ctrl+C |
| RunMenu.Step | src/tui/run.py:52-285 | the cursor stays in 0..5 and isothermal implies HLLD; it launches exactly on Enter at option 5 with a non-empty case name; Ctrl+C interrupts in every state |
| RunMenu.CycleStep | src/tui/run.py:232-270 | off the case name, Left and Right are `Cycle` |
| RunMenu.IsothermalForcesHLLD | src/tui/run.py:236-264 | after every key, isothermal implies HLLD |
| RunMenu.SolverFixedWhenIsothermal | src/tui/run.py:242-244 | on the solver option with isothermal, no key changes the solver from HLLD |
| RunMenu.WallTimeFloor | src/tui/run.py:245-251 | Left at 1 hour leaves the state unchanged |
| RunMenu.WallTimeRight | src/tui/run.py:265-270 | Right on the wall time applies `WallTimeUp` and changes nothing else |
| RunMenu.WallTimeLeft | src/tui/run.py:245-251 | Left on the wall time applies `WallTimeDown` and changes nothing else |
| RunMenu.WallTimeRightLeft | src/tui/run.py:245-270 | Right then Left on the wall time restores the state |
| RunMenu.PrecisionToggles | src/tui/run.py:253-255 | Right toggles FP64 and FP32 |
| RunMenu.EosToggles | src/tui/run.py:256-261 | Right toggles isothermal and adiabatic |
| RunMenu.EmptyNameStays | src/tui/run.py:275-280 | Enter on start with an empty case name stays in the loop, and the next key only dismisses the error, except Ctrl+C, which interrupts |
| RunMenu.CaseNameEnter | src/tui/run.py:177-182 | Enter while editing the case name moves to option 1 |
| RunMenu.CaseNameEdited | src/tui/run.py:198-213 | a printable key or Backspace edits the case name |
| RunMenu.EnvOf | src/tui/run.py:299-303 | the exported case name and wall time are the state's; the exported EoS `isothermal` comes with HLLD |
| RunMenu.Drive | src/tui/run.py:52-303 | `Step` applied to each key until a launch or a quit: a launch needs an Enter at option 5 with a non-empty case name and exports `EnvOf`; quitting needs an Escape and an interrupt a Ctrl+C; the invariant holds |
| RunMenu.DriveAppend | src/tui/run.py:52-285 | more keys continue a waiting menu from the state reached, and change nothing after a launch or a quit |
| RunMenu.Run | src/tui/run.py:52-303 | the loop's outcome is exactly `Drive` of the keys from `Initial` |
| RunMenu.CtrlCEndsMenu | src/tui/run.py:311-315 | Ctrl+C ends the menu from every state, the case name being edited and the message shown included, without a launch |
| RstMenu.Initial | src/tui/rst.py:30-48 | the defaults are an empty `tlim`, `"24"`, no new output and editor N/A, and the invariant holds |
| RstMenu.Cycle | src/tui/rst.py:243-277 | Left/Right keep the invariant, the option and `tlim`; they change the wall time, or cycle the editor when new output is on |
| RstMenu.EditingKey | src/tui/rst.py:188-233 | a key while `tlim` is edited keeps the invariant |
| RstMenu.NormalKey | src/tui/rst.py:239-286 | it launches exactly on Enter at option 4, quits exactly on Escape and interrupts exactly on Ctrl+C |
| RstMenu.Step | src/tui/rst.py:50-286 | the cursor stays in 0..4, and "no new output" implies editor N/A with index 0; it launches exactly on Enter at option 4; Ctrl+C interrupts in every state |
| RstMenu.CycleStep | src/tui/rst.py:243-277 | off `tlim`, Left and Right are `Cycle` |
| RstMenu.EditorFixedWithoutNewOutput | src/tui/rst.py:258-260 | without new output, the editor option ignores Left and Right and shows N/A |
| RstMenu.NewOutputToggles | src/tui/rst.py:268-274 | Right toggles the new-output flag; turning it off resets the editor to N/A |
| RstMenu.EditorCycle | src/tui/rst.py:275-277 | with new output on, Right cycles N/A, manual, nano |
| RstMenu.EditorCycleInverse | src/tui/rst.py:258-277 | with new output on, Right then Left restores the editor |
| RstMenu.WallTimeRight | src/tui/rst.py:262-267 | Right on the wall time applies `WallTimeUp` |
| RstMenu.WallTimeLeft | src/tui/rst.py:244-250 | Left on the wall time applies `WallTimeDown` |
| RstMenu.TlimEnter | src/tui/rst.py:188-193 | Enter while editing `tlim` moves to option 1 |
| RstMenu.TlimEdited | src/tui/rst.py:209-233 | a printable key or Backspace edits `tlim` |
| RstMenu.EscapeWhileEditing | src/tui/rst.py:194-198 | Escape while editing `tlim` only stops editing |
| RstMenu.EnvOf | src/tui/rst.py:303-310 | `ATHENA_TLIM` is `tlim` or `"0"`; the flag is `"1"`/`"0"` according to new output; with `"0"` the editor is N/A |
| RstMenu.Drive | src/tui/rst.py:50-310 | `Step` applied to each key until a launch or a quit: a launch needs an Enter at option 4 and exports `EnvOf`; quitting needs an Escape and an interrupt a Ctrl+C; the invariant holds |
| RstMenu.DriveAppend | src/tui/rst.py:50-286 | more keys continue a waiting menu from the state reached, and change nothing after a launch or a quit |
| RstMenu.Run | src/tui/rst.py:50-310 | the loop's outcome is exactly `Drive` of the keys from `Initial` |
| RstMenu.CtrlCEndsMenu | src/tui/rst.py:316-322 | Ctrl+C ends the menu from every state, the end time being edited included, without a launch |
| SlcMenu.Initial | src/tui/slc.py:132-150 | the first format, `rho`, `x`, `RdBu` and option 0, and the invariant holds |
| SlcMenu.Cycle | src/tui/slc.py:271-296 | Left/Right keep the invariant and the option |
| SlcMenu.Step | src/tui/slc.py:263-302 | each index stays inside its list; it launches exactly on Enter at option 4, quits exactly on Escape and interrupts exactly on Ctrl+C |
| SlcMenu.CycleInverse | src/tui/slc.py:271-296 | on every option, Right then Left restores the state |
| SlcMenu.DirectionWraps | src/tui/slc.py:278-293 | Right on `z` gives `x`, and Left on `x` gives `z` |
| SlcMenu.DirNum | src/tui/slc.py:320 | `dir_num`; `DirNumIsAxis` states it for every direction of the menu |
| SlcMenu.DirNumIsAxis | src/tui/slc.py:320 | `dir_num` sends `x`, `y`, `z` as `"1"`, `"2"`, `"3"` |
| SlcMenu.Found | src/tui/slc.py:82-93 | the statistics of the files that read and hold the quantity, one per such file |
| SlcMenu.FoundAppend | src/tui/slc.py:83-93 | a file that fails to read, or lacks the quantity, adds nothing; otherwise it appends its statistics |
| SlcMenu.MinsMaxsAt | src/tui/slc.py:87-88 | entry `i` of `min_values`/`max_values` is the minimum/maximum of snapshot `i` |
| SlcMenu.StatsAppend | src/tui/slc.py:86-91 | one more snapshot appends its minimum and maximum and adds its mean |
| SlcMenu.RhoRange | src/tui/slc.py:100-104 | the density range is symmetric about `avg_rho` and reaches both the overall minimum and the overall maximum |
| SlcMenu.ZeroCentredRange | src/tui/slc.py:105-108 | `vmin = -vmax` with `vmax = max(abs(max), abs(min))`, enclosing both |
| SlcMenu.DataRange | src/tui/slc.py:66-68 | `(-1, 1)` without an Athena++ path or without any snapshot holding the quantity |
| SlcMenu.DataRangeEncloses | src/tui/slc.py:96-108 | the range encloses the minimum and the maximum of every snapshot that holds the quantity |
| SlcMenu.DataRangeCentre | src/tui/slc.py:100-108 | the density range is centred on the mean of the snapshot means; any other range on zero |
| SlcMenu.Collect | src/tui/slc.py:77-93 | the loop collects `Mins`/`Maxs` of the snapshots found and, for `rho`, the sum and count of their means |
| SlcMenu.RangeOfValues | src/tui/slc.py:96-111 | the formula: `RhoRange` about `sum/count`, or about the midpoint when `count` is 0, for density; `ZeroCentredRange` otherwise |
| SlcMenu.CalculateDataRange | src/tui/slc.py:60-117 | `calculate_data_range` returns `DataRange` of the snapshots that hold the quantity |
| SlcMenu.Drive | src/tui/slc.py:263-302 | `Step` applied to each key until a launch or a quit: a launch needs an Enter at option 4; quitting needs an Escape and an interrupt a Ctrl+C; the invariant holds |
| SlcMenu.DriveAppend | src/tui/slc.py:263-302 | more keys continue a waiting menu from the state reached, and change nothing after a launch or a quit |
| SlcMenu.Run | src/tui/slc.py:263-302 | the loop's outcome is exactly `Drive` of the keys from `Initial` |
| SlcMenu.CtrlCEndsMenu | src/tui/slc.py:349-353 | Ctrl+C ends the menu from every state without a launch |
| SlcMenu.Prepare | src/tui/slc.py:307-341 | no files stops the script; otherwise the files are the matches in sorted order, `ATHENA_PATH` is the path, `SLC_DIR` is `dir_num`, the format, quantity, colour map and case directory are the menu's, and the range is `DataRange` of those files |
| Sorting.SortNames | src/tui/slc.py:53-58 | `sorted` returns a permutation of the names in non-decreasing string order |
| Sorting.Sort | src/tui/slc.py:55 | insertion sort under a total preorder: a permutation of the input, ordered by it |
| Strings.StripLeft | src/post/hst.py:43 | `lstrip(chars)` removes a prefix made only of `chars` and keeps the rest, whose first character is not in `chars` |
| Strings.StripRight | src/post/hst.py:43 | `rstrip(chars)` removes a suffix made only of `chars` and keeps the rest, whose last character is not in `chars` |
| Strings.Strip | src/post/hst.py:42 | `str.strip` keeps a contiguous piece of the text, removes only whitespace before and after it, and leaves no whitespace at either end |
| Strings.StripCharsEnds | src/post/hst.py:43 | `strip(chars)` keeps a contiguous piece of the text, removes only characters of `chars` before and after it, and leaves none of them at either end |
| Strings.SplitWhitespace | src/post/hst.py:43 | `split()` gives non-empty, whitespace-free words that, written one after the other, are exactly the non-whitespace characters of the text |
| Strings.SplitAtSpace | src/post/hst.py:43 | a whitespace character splits the text: the words are those before it followed by those after it |
| Strings.SplitWord | src/post/hst.py:43 | text without whitespace is one word, and text of only whitespace gives no word |
| Strings.ParseIntOfString | src/tui/run.py:247 | `int(str(h)) == h` |
| Strings.ParseInt | src/tui/run.py:247 | `int(s)`; `ParseIntOfString` states that it reads back `str(h)` |
| Strings.JoinSplit | src/tui/cor.py:369-375 | splitting on a separator undoes joining space-free parts with it |
| Strings.Split | src/tui/cor.py:27 | `s.split(sep)` gives at least one piece |
| Strings.Join | src/tui/cor.py:369-375 | the words joined by single separators; `JoinSplit` states that splitting undoes it |
| Extrema.MaxIsLargest | src/post/hst.py:98 | `np.max` is one of the values and at least each of them |
| Extrema.MinIsSmallest | src/tui/slc.py:97 | `min` is one of the values and at most each of them |

## Left out

- **Rendering.** curses drawing, colours, cursor placement and screen size
  are out; `getch` becomes the abstract `Key` sequence given to `Run`
  (`Menus.KeyOf` turns a code into a key).
- **Host calls.** `os.system`, `os.execl`, `source`/`srun` launches and
  `os.path.exists` script checks are out. Environment variables written
  before a launch are returned as an `Env` record; `SLURM_FLAG` and
  `USERNAME` reads are out.
- **Data reading.** `athena_read.athdf`, HDF5, `glob`, `os.listdir`,
  `np.loadtxt` and `os.getcwd` are out. Snapshots come from the `read`
  parameter, glob results are given sequences, and the case directory name
  is a parameter.
- **Library internals.** The FFT-versus-direct choice of `method='auto'` is
  out; only the direct lag-sum definition is modelled.
- **Floating point.** Values are `real`, so rounding, overflow and the
  `isfinite` check on the history limit are out. A zero centre is modelled
  as a NaN cube.
- **Unused results.** The `float()` conversion in `get_qshear` is out: the
  model returns the extracted text. The printed parsing errors are out too.
- **Two error paths.** `get_box` raises `IndexError` when no `*.00000.athdf`
  exists, and `get_qshear` raises `IndexError` when no `athinput.*` exists
  (`glob(...)[0]`, outside its `try`). Either exception escapes
  `output2turbulence`. The model starts from the reference file's grid map
  and from the `athinput` lines.
- Preprocess.Output2Turbulence: does not model the `IndexError` from
  `get_box` or `get_qshear` when their glob finds nothing; it starts from
  their inputs.
- **Unused grid size in `get_box`.** There the `RootGridSize` values are
  read and printed only.
- **Profile coordinate count.** In `correlation.py` the coordinate count
  `N` of each profile is `RootGridSize` along its axis, read by the
  command-line driver, which is not part of this model. The profile lemmas
  take it as a separate `n`. `Slices.ProfileLengthsAgree` holds for any
  `n`; `Slices.ProfileLengthsAgreeIffEven` and
  `Slices.OddAxisProfileMismatch` assume a root-resolution cube, with `n`
  the cube's own size along the axis. The corrected `Slices.Coordinates`
  uses the cube's size.
- **Naming.** The `.2f` directory and file names of `create_directories`
  and the plots are out.
- **Formatting.** `str(vmin)` and `str(vmax)` text formatting are out: the
  range is returned as numbers.
- **Plotting.** matplotlib calls are out, beyond which indices and extents
  feed each panel and profile; this includes colour maps, figure sizes and
  the logarithmic axis of the history plots.
- **External classes.** The external `pymri` classes (`ScalarField`,
  `VectorField`, `Turbulence`) are out: the stored lists are returned as
  they are.
- **Thin wrappers.** `src/post/spectra.py` and `src/post/slice.py` only
  call into `pymri` and are not part of this model.
- **The command-line driver.** The `__main__` driver of `correlation.py` is
  out: `argparse`, and `return` at module scope.
- History.Plots: requires a non-empty table. `HistoryPlots` only reaches it
  after `data[:, 0]` has succeeded, which needs at least two rows and two
  columns.
- **Unicode whitespace.** `str.strip()` and `split()` use Python's full
  Unicode whitespace set; the model uses the ASCII whitespace characters.
- **The Athena++ path.** `get_athena_path` reads only the `ATHENA_PATH`
  environment variable and exits only when it is unset. The model takes an
  optional path, and `NoAthenaPath` stands for the exit. A set but empty
  value gets through, and `DataRange` then gives `(-1, 1)`.
- **The exception path of `get_output_formats`.** It is out because the
  glob result is given.
- **Unreachable branches.**
  - The `ValueError` branches of the wall-time keys cannot be reached: the
    menu only ever stores `str(h)` (`Menus.WallTimeValid`). They are still
    modelled (`WallTimeUp`, `WallTimeDown`).
  - `SlcMenu.DataRange` never reaches the midpoint branch of `avg_rho`
    (`count == 0`), because every density snapshot found is counted.
    `SlcMenu.RangeOfValues` models that branch.
- **Not reset by EoS.** `rsolver_index` is not reset when the EoS forces
  HLLD, and the model keeps that.
- Correlation.Components: does not model numpy broadcasting. Components of
  different shapes give no cube, so the snapshot is skipped, while
  `corr_x + corr_y + corr_z` would broadcast shapes such as (4,4,4) and
  (1,4,4) and still append a cube. `athdf` returns every cell-centred
  quantity on the same mesh, so the three components normally share one
  shape.
- **Diagnostics.** The printed messages are out. This includes the errors and
  warnings of `find_files` for no match, an unreadable file or an empty
  window (`correlation.py:35`, `:52`, `:60`). It also includes those of
  `calculate_correlation` for a missing magnetic field or a failing file
  (`:148`, `:151`), and those of `output2turbulence` for a missing quantity or
  an unreadable file (`preprocess.py:203`, `:207`). Which files were skipped
  can be read off the model: `Kept`, `Cubes` and `StoredFiles` say exactly
  which files contribute.
- SlcMenu.Initial: requires a non-empty format list. `get_output_formats`
  never returns an empty list (`Menus.OutputFormats`).

## Findings

| source | as written | input that shows it | evidently intended | confidence | as-written member | corrected member |
|---|---|---|---|---|---|---|
| src/post/correlation.py:188-208 | `imshow` draws the rows of a matrix vertically and its columns horizontally, but every panel's labels and extent name its row index as the horizontal axis. The x and y cuts are drawn untransposed. The z cut is transposed and its extents are swapped as well, so the two swaps do not cancel. All three panels therefore show their two axes with the labels and extents exchanged. | a non-cubic box, e.g. `Ly ≠ Lz`: the x cut draws the z index horizontally across a span of `Ly` labelled `Δy` | each label and extent names the axis drawn there (transpose the x and y cuts, and not the z cut) | medium, not executed | Slices.PanelsAsWrittenSwapLabels | Slices.PanelsLabelled |
| src/post/correlation.py:234-245 | The profile `corr[c:, …]` has `N - N//2` samples but is plotted against `np.linspace(0, L/2, N//2)` | a root-resolution cube (`N` its size along the axis) with `N = 3`: 2 samples against 1 coordinate, so `plt.plot` gets lengths that disagree. For even `N = 4`, `L = 4`, the coordinates are `[0, 2]` though the second sample is one cell (separation 1) from the centre | one coordinate per sample, `d * L / N` for sample `d` | medium, not executed | Slices.OddAxisProfileMismatch | Slices.CoordinatesMatchProfile |
