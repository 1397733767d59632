# Matrix, network and racing-game core in Dafny

This project models three parts of a small neural-network racing game.

- The C++ `Matrix` class (`src_cpp/matrix.h`, `src_cpp/matrix.cpp`) is a flat buffer with a row count, a column count and a rank tag. The tag says whether the buffer is laid out row by row or column by column. The model has two parts:
  - the `Matrices.Matrix` class, whose methods update the rank and the buffer in place;
  - its value, the `Matrices.Mat` datatype.

  The product and the tolerant equality are specified on the values. The loops of `operator*`, `operator==` and `dot` are proved against those specifications. `get_rows` and `get_columns` are the functions `GetRows` and `GetColumns`, which return the constant shape fields.
- `NeuralNet` (`src_cpp/neural_net.cpp`) holds two zero-initialised weight matrices. Its forward pass is `(input * weights1) * weights2`.
- The non-graphical logic of the Python game (`python_env/game.py`):
  - the lap clock display `format_time`;
  - the text format of the track file (`save_data` / `load_data`), as pure functions over strings;
  - the car's lap bookkeeping (`Car.reset` and the checkpoint branch of `Car.update`);
  - the two-click gate editor of the main loop.

  The Python built-ins this logic relies on are modelled in `PyText`: `str` and `int` on integers, `strip`, `split` and `readlines`.

Matrix elements are reals. The clock is an integer parameter `now`. Whether the car is within reach of its next gate is a boolean parameter `hit`. The content of the track file is a parameter: `None` when the file does not exist.

## Model

| member | source | states |
|---|---|---|
| Matrices.Flip | src_cpp/matrix.h:10 | the rank has two values and flipping always gives the other one |
| Matrices.Offset | src_cpp/matrix.cpp:28-40 | for every in-bounds cell and either rank, the offset the accessors use lies inside `[0, rows*cols)` |
| Matrices.OffsetInjective | src_cpp/matrix.cpp:35-40 | two different cells of one grid never share a buffer slot, under either rank |
| Matrices.OffsetOnto | src_cpp/matrix.cpp:28-40 | every buffer slot is the slot of some cell, under either rank |
| Matrices.Zero | src_cpp/matrix.cpp:10-15 | the shape constructor's value: `m*n` elements, all zero, with the given rank |
| Matrices.Product | src_cpp/matrix.cpp:49-65 | the product is a valid `a.rows x b.cols` matrix of row rank |
| Matrices.ProductAt | src_cpp/matrix.cpp:54-63 | cell (i, j) of the product is the left-to-right sum over k < a.cols of a(i, k) * b(k, j), both read through their rank |
| Matrices.ProductCell | src_cpp/matrix.cpp:52-61 | the product is row rank, so cell (i, j) is buffer slot `i*cols+j`, in range, and holds the inner product of row i and column j |
| Matrices.ProductReadsCells | src_cpp/matrix.cpp:57-60 | the product depends only on the factors' logical cells, not on how their buffers are laid out |
| Matrices.ProductZeroRight | src_cpp/matrix.cpp:49-65 | a product with an all-zero right factor is all zeros |
| Matrices.ProductZeroLeft | src_cpp/matrix.cpp:49-65 | a product with an all-zero left factor is all zeros |
| Matrices.RowMatrixColumn | src_cpp/matrix.cpp:54-63 | a row times a matrix times a column groups either way: `(u*B)*w == u*(B*w)`, the step that carries associativity |
| Matrices.ProductAssociative | src_cpp/matrix.cpp:49-65 | `(a*b)*c == a*(b*c)` exactly for every chain of shapes |
| Matrices.ProductExample | src_cpp/test.cpp:11-30 | `[1,2,3,4]*[5,6,7,8]` is `[19,22,43,50]`; `B*A` is `[23,34,31,46]` and they do not compare equal; the column-rank `C` times `B` is `[26,30,38,44]` |
| Matrices.Close | src_cpp/matrix.cpp:67-75 | matrices that compare equal have the same shape and buffer length, and when they share a rank every pair of corresponding cells is within 1e-5 |
| Matrices.CellsFromBuffers | src_cpp/matrix.cpp:71-74 | under one layout, buffers within 1e-5 slot by slot hold cells within 1e-5 of each other |
| Matrices.CloseReflexive | src_cpp/matrix.cpp:67-75 | every matrix compares equal to itself |
| Matrices.CloseSymmetric | src_cpp/matrix.cpp:67-75 | `a == b` exactly when `b == a` |
| Matrices.CloseIgnoresRank | src_cpp/matrix.cpp:67-75 | a matrix compares equal to its own transposed copy |
| Matrices.CloseComparesBuffers | src_cpp/matrix.cpp:67-75 | equality compares raw buffers: one buffer under the two ranks compares equal though its cells differ; the same cells under the two layouts compare unequal |
| Matrices.TransposeSquare | src_cpp/matrix.cpp:21-33 | for a square matrix, after the flip, cell (r, c) reads what cell (c, r) read before |
| Matrices.TransposeNonSquare | src_cpp/matrix.cpp:21-33 | for a 2 x 3 matrix the flip keeps the shape and only reinterprets the buffer: new (0, 1) is 3, old (1, 0) is 4 |
| Matrices.Dot | src_cpp/matrix.cpp:42-47 | the loop returns the inner product over the length of `a`; `b` must be at least as long |
| Matrices.Matrix.constructor | src_cpp/matrix.cpp:10-15 | `m*n` zeros with the given rank, which defaults to row (src_cpp/matrix.h:19) |
| Matrices.Matrix.FromData | src_cpp/matrix.cpp:3-8 | stores the shape, the rank (row by default) and `x` as the buffer; a buffer of length `m*n` is the caller's obligation |
| Matrices.Matrix.GetRows | src_cpp/matrix.cpp:17 | `get_rows` is the row count, which times the column count is the buffer length |
| Matrices.Matrix.GetColumns | src_cpp/matrix.cpp:19 | `get_columns` is the column count, which times the row count is the buffer length |
| Matrices.Matrix.Transpose | src_cpp/matrix.cpp:21-26 | the rank toggles; the shape and the buffer are unchanged |
| Matrices.TransposeTwice | src_cpp/matrix.cpp:21-26 | transposing twice restores the original state |
| Matrices.Matrix.Get | src_cpp/matrix.cpp:28-33 | the const accessor reads the cell through the rank's layout, without writing anything |
| Matrices.Matrix.Set | src_cpp/matrix.cpp:35-40 | a write through the mutable accessor changes exactly one buffer slot; the cell then reads the written value and every other cell reads as before |
| Matrices.Matrix.CellSum | src_cpp/matrix.cpp:56-60 | the innermost loop accumulates, left to right, the inner product of row i of the receiver and column j of the argument, both read through their rank |
| Matrices.Matrix.Mul | src_cpp/matrix.cpp:49-65 | the triple loop returns a fresh matrix whose value is the product; having no `modifies` clause, it changes neither operand |
| Matrices.Matrix.Equals | src_cpp/matrix.cpp:67-75 | false when the shapes differ; otherwise true exactly when every buffer pair is within 1e-5 |
| MatrixTests.AssociativityTestAlwaysAborts | src_cpp/test.cpp:61-64 | the test as written reaches its `assert(false)` on every chain of matrices |
| MatrixTests.AssociativityTestDataAborts | src_cpp/test.cpp:43-64 | in particular it aborts on the test's own three matrices |
| MatrixTests.AssociativityTestIntendedPasses | src_cpp/test.cpp:61-64 | the intended check, which aborts when the groupings differ, never aborts |
| NeuralNets.ForwardValue | src_cpp/neural_net.cpp:11-15 | the forward pass has the input's rows, the second weight matrix's columns and row rank |
| NeuralNets.ForwardZero | src_cpp/neural_net.cpp:9-15 | with all-zero second-layer weights the forward pass is all zeros for every input |
| NeuralNets.ForwardZeroFirstLayer | src_cpp/neural_net.cpp:11-15 | with all-zero first-layer weights the forward pass is all zeros for every input |
| NeuralNets.NeuralNet.constructor | src_cpp/neural_net.cpp:8-9 | the weights are fresh zero matrices of row rank, `input x hidden` and `hidden x output` |
| NeuralNets.NeuralNet.Forward | src_cpp/neural_net.cpp:11-15 | returns a fresh `(input * weights1) * weights2`; it has the input's rows and the output size's columns, is row rank and is all zeros; input and weights are not written |
| PyText.NatToString | python_env/game.py:113 | `str(n)` of a natural number is nonempty and all digits, one digit exactly below 10, and starts with '0' only for 0 |
| PyText.IntToString | python_env/game.py:113 | `str(n)` starts with a minus sign exactly when n is negative, and its digits are nonempty and start with '0' only for 0 |
| PyText.NatToStringValue | python_env/game.py:113 | the digits of `str(n)` denote n |
| PyText.ParseInt | python_env/game.py:123 | `int(s)` succeeds only when `s` holds no information separator (U+001C to U+001F) and, stripped, is a numeral: an optional sign then one or more decimal digits; a negative result was written with a minus sign |
| PyText.ParseSigned | python_env/game.py:123 | on stripped text, `int` succeeds exactly on numerals |
| PyText.InfoSeparatorRejected | python_env/game.py:123 | `strip` removes a leading U+001C, yet `int` of the same text raises |
| PyText.ParseIntToString | python_env/game.py:123 | `int(str(n)) == n` for every integer |
| PyText.ParseDigits | python_env/game.py:123 | `int` of a nonempty run of decimal digits is the number they denote |
| PyText.ParseNegative | python_env/game.py:123 | `int` of a minus sign followed by decimal digits is the negated number |
| PyText.StripLeft | python_env/game.py:123 | `lstrip` removes exactly a maximal whitespace prefix |
| PyText.StripRight | python_env/game.py:123 | `rstrip` removes exactly a maximal whitespace suffix |
| PyText.Strip | python_env/game.py:123 | `strip()` removes a whitespace prefix and a whitespace suffix, and what is left is empty or neither starts nor ends with whitespace |
| PyText.StripUnpadded | python_env/game.py:123 | strip leaves a string without surrounding whitespace unchanged |
| PyText.Split | python_env/game.py:123 | `split(sep)` gives at least one piece and no piece contains the separator |
| PyText.SplitPrefix | python_env/game.py:126 | splitting a separator-free prefix followed by more text glues the prefix to the first piece |
| PyText.JoinSplit | python_env/game.py:126 | `sep.join(s.split(sep)) == s` |
| PyText.SplitJoin | python_env/game.py:126 | splitting the join of separator-free pieces gives the pieces back |
| PyText.ReadLines | python_env/game.py:122 | `readlines` never yields an empty line |
| PyText.ReadLinesLossless | python_env/game.py:122 | the lines of `readlines` concatenate back to the whole text |
| PyText.ReadLinesPrefix | python_env/game.py:122 | a first line ended by a newline is read as one line, followed by the lines of the rest |
| PyText.ReadLinesShape | python_env/game.py:122 | `readlines` cuts right after each '\n' and nowhere else: no line holds '\n' before its end, and every line but the last ends with '\n' |
| PyText.ReadLinesOneLine | python_env/game.py:122 | nonempty text without '\n' (a last line saved without its newline) is read as one line |
| Timer.Pad2 | python_env/game.py:28 | `f"{n:02}"` is all digits, at least two long, exactly two below 100, starts with '0' exactly below 10, and parses back to n |
| Timer.FormatTime | python_env/game.py:23-28 | the placeholder `--:--:--` exactly when the time is infinite or negative |
| Timer.ClockFields | python_env/game.py:25-27 | minutes, seconds and hundredths recombine to the time cut down to hundredths |
| Timer.FormatTimeReadsBack | python_env/game.py:25-28 | split at ':' the display has three integer fields; seconds are two digits below 60, hundredths two digits below 100, minutes at least two digits; together they give the time cut down to hundredths |
| Timer.FieldsJoin | python_env/game.py:28 | three digit fields joined with ':' contain no ':' of their own |
| Timer.FormatTimeWidth | python_env/game.py:28 | below a hundred minutes the display is eight characters wide |
| TrackFile.TryMap | python_env/game.py:123-129 | a list comprehension of `int` fails exactly when one item fails, and otherwise holds each item's value |
| TrackFile.Truncated | python_env/game.py:113-115 | cutting every point of the gates down to two coordinates keeps the number of gates |
| TrackFile.GatesText | python_env/game.py:114-115 | the gate lines read back as one line per gate, in order, each the gate's text followed by a newline |
| TrackFile.SaveData | python_env/game.py:111-115 | the written text reads back as the spawn point's line followed by one line per gate, in order |
| TrackFile.ParseGate | python_env/game.py:126-129 | a gate line fails exactly when, stripped, it has other than one bar or a field on either side is not an integer; otherwise the fields of the two sides are the gate's two points |
| TrackFile.GatesParsed | python_env/game.py:125-129 | the lines after the first parse exactly when each one is a gate, into one gate per line in order |
| TrackFile.ParseTrack | python_env/game.py:122-130 | no track exactly when the file has no line, a spawn field is not an integer or a later line is not a gate; otherwise the spawn point is the first line's fields and gate k is line k + 1 |
| TrackFile.LoadData | python_env/game.py:117-131 | the default track when the file is missing or malformed; otherwise the track its lines describe |
| TrackFile.IntToStringChars | python_env/game.py:113-115 | the text of an integer holds no comma, bar or newline and has no whitespace at its ends |
| TrackFile.PointTextFields | python_env/game.py:127-128 | a written point splits at ',' into the texts of its first two coordinates |
| TrackFile.ParseTwoInts | python_env/game.py:127-128 | the texts of two integers parse back into those two integers |
| TrackFile.ParsePointText | python_env/game.py:127-128 | a written point splits at ',' and parses back into its first two coordinates |
| TrackFile.StripLine | python_env/game.py:126 | stripping a written line removes just its newline |
| TrackFile.GateTextSplits | python_env/game.py:126 | a written gate line splits at the bar into the texts of its two points |
| TrackFile.ParseGateText | python_env/game.py:126-129 | a written gate line parses back into the gate cut down to two coordinates per point |
| TrackFile.ParseGatesText | python_env/game.py:125-129 | the gate lines parse back into the truncated gates, in order |
| TrackFile.LoadSaved | python_env/game.py:111-130 | loading what `save_data` wrote gives back the spawn point and the gates cut down to two coordinates; for two-coordinate points, the very same track |
| TrackFile.ParseSaved | python_env/game.py:111-130 | the text `save_data` writes parses into the spawn point and the gates, each point cut down to two coordinates |
| TrackFile.SpawnLine | python_env/game.py:113-123 | the spawn line `save_data` writes parses into the spawn point's first two coordinates |
| TrackFile.PlanarTruncated | python_env/game.py:113-115 | cutting down points that already have two coordinates changes nothing |
| TrackFile.BadSpawnFallsBack | python_env/game.py:118-131 | a missing file, an empty file or a spawn line with a non-integer field loads the default track |
| TrackFile.BadGateFallsBack | python_env/game.py:125-131 | one unparseable gate line anywhere loads the default track for the whole file |
| TrackFile.BadFieldFallsBack | python_env/game.py:123-131 | a spawn line with any field that is not an integer loads the default track |
| TrackFile.WrongBarCount | python_env/game.py:126-131 | a gate line made of one or three or more bar-separated pieces fails to parse |
| TrackFile.GateNeedsOneBar | python_env/game.py:126 | a gate line that does not split into exactly two parts at the bar fails |
| TrackFile.EmptyFileFallsBack | python_env/game.py:122-131 | an empty file loads the default track |
| TrackFile.GateWithoutBarFallsBack | python_env/game.py:126-131 | `10,20\n1,2\n` loads the default track |
| TrackFile.GateWithTwoBarsFallsBack | python_env/game.py:126-131 | a gate line with two bars, `1,2` then `3,4` then `5,6`, loads the default track |
| TrackFile.TwoLines | python_env/game.py:122 | two newline-terminated lines read as those two lines |
| TrackFile.NonIntegerFallsBack | python_env/game.py:123-131 | `10,x\n` loads the default track |
| TrackFile.NotAnInteger | python_env/game.py:123 | `int("x")` raises |
| TrackFile.LeftClick | python_env/game.py:158-164 | a left click toggles the pending point; the second click of a pair appends one gate and keeps the earlier gates |
| TrackFile.TwoClicksAddGate | python_env/game.py:158-164 | two clicks with nothing pending append exactly the gate between the two points |
| Laps.CheckpointStep | python_env/game.py:83-95 | a hit moves to the next gate modulo the gate count and stays in range; a miss or no gates changes nothing; the wrap adds one lap, records the lap time, restarts the lap clock and never raises the best time; otherwise the lap fields are unchanged |
| Laps.StepKeepsInvariant | python_env/game.py:83-95 | every step keeps the lap invariant: no best lap before the first lap, and the best never slower than the last lap |
| Laps.FinishLap | python_env/game.py:83-95 | hitting the remaining gates in turn completes exactly one lap, timed from the lap's start to the last hit |
| Laps.Car.constructor | python_env/game.py:31-34 | the car spawns at (x, y) and is reset |
| Laps.Car.Reset | python_env/game.py:42-52 | back at the spawn point, standing still, gate 0, no laps, last lap 0, best lap infinity, lap clock started now |
| Laps.Car.UpdateCheckpoint | python_env/game.py:83-95 | the lap fields change as `CheckpointStep` says; position, speed, angle and spawn point do not |

## Findings

| source | as written | input that shows it | evidently intended | confidence | as-written member | corrected member |
|---|---|---|---|---|---|---|
| src_cpp/test.cpp:61-64 | the associativity test reaches `assert(false)` when `(A*B)*C` and `A*(B*C)` compare equal | A = [1,2,3,4], B = [5,6,7,8], C = [9,1,2,3], all row rank: the product is associative, so the two compare equal | abort only when the two groupings differ | high (not executed) | MatrixTests.AssociativityTestAlwaysAborts | MatrixTests.AssociativityTestIntendedPasses |

## Left out

- Matrix elements are reals, not IEEE `float`. Rounding, the order in which the sums accumulate, and NaN are not modelled. Associativity and the exact example values hold over the reals. The 1e-5 tolerance of `operator==` is compared as a real.
- 32-bit `int` overflow in `rows * cols` and in the offset arithmetic is not modelled: shapes are unbounded naturals.
- Matrices.Matrix.FromData: requires x to hold exactly `m*n` elements. The source stores any vector unchecked, and later accesses past its end are undefined behaviour.
- Matrices.Product: requires `a.cols <= b.rows`. When the left factor has more columns than the right has rows, `operator*` reads out of bounds (undefined behaviour). With fewer columns, only the first `a.cols` rows of `b` take part, as in the source.
- Matrices.Matrix.Get: requires in-bounds indices. Out-of-range accessor calls are undefined behaviour in the source.
- Matrices.Matrix.Set: requires in-bounds indices, for the same reason.
- Matrices.Matrix.Set: models the mutable `operator()` only in its one use, assignment through the returned reference. A reference kept and written later is not modelled.
- `Matrix::print`: console output.
- The timing, random-matrix and console parts of the test program: not modelled. The one exception is the associativity check listed under Findings.
- `NeuralNet` and `Matrix` sizes are naturals: negative sizes are not modelled. In the source, the shape constructor throws when `m*n` is negative, and otherwise stores the negative shape as given.
- `int()` accepts more than this model does: underscores between digits (`1_000`) and non-ASCII decimal digits are not modelled.
- PyText.ParseInt / PyText.IntToString: CPython 3.11 and later (and the security releases of 3.7 to 3.10) limit decimal conversion to 4300 digits (`sys.int_max_str_digits`). Beyond it `int()` and `str()` raise ValueError, and so do the f-strings of `save_data` and `format_time`. The model converts integers of any length. So `ParseIntToString`, `Timer.Pad2`, `Timer.FormatTimeReadsBack` and `TrackFile.LoadSaved` also cover numbers the program rejects. For the same reason, a track file with a field over 4300 digits loads here instead of falling back to the default track.
- `readlines` in text mode translates `\r\n` and `\r` into `\n`. This is not modelled: the file text is taken after translation.
- File I/O (`open`, `os.path.exists`, writing) and decoding errors: the file's content is a parameter.
- pygame (the display, fonts, images, the wall mask, drawing, the event loop and the clock): not modelled. `get_ticks()` is the parameter `now`.
- Car physics: speed, steering, motion, the speed clamp and wall collision (python_env/game.py:55-81). Their fields are kept, but only `reset` writes them here.
- `dist_point_to_line` (python_env/game.py:97-103) is float geometry. Its `dist < 15` result is the boolean `hit`.
- In the main loop, the right-click spawn move, the C key and the call to `save_data` after a completed gate are I/O around the modelled functions, and are not modelled.
- TrackFile.LoadSaved: covers points with at least two coordinates. `save_data` raises on shorter points, and only the first two coordinates are written, so longer points come back truncated.
