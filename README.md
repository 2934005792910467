# OxidePlot core, modelled in Dafny

OxidePlot is a desktop plotter for logged sensor data. A user loads a CSV
or Excel file into one of several graphs, picks an x column and one or more
y columns (optionally a z column for a 3D scatter), and the graphs draw the
series on the GPU. This project models the part of the program that decides
*what* is drawn and how the state changes from frame to frame, and proves
what that logic promises.

What is modelled, module by module:

- **Series and graphs** (`Series`, `Graph`, `State`): a data series with its
  defaults and palette colour, a graph's series list, its per-unit y axes and
  x/y ranges, and the application's ordered graphs with their X-axis sync
  groups (adjacency lists, which are not closed transitively, plus a cached
  group id: the least of the graph's own id and its direct partners' ids).
- **Unit inference** (`Units`): the first-match keyword table that turns a
  column name into a unit ("Degrees", "G", "°C", …, fallback "units").
- **Timestamp repair** (`Datetime`): `fix_error_timestamps`, which replaces
  readings from an unset device clock by values stepped from the nearest
  valid timestamp, proved against a reference definition and shown
  idempotent. Timestamps are doubles: a not-a-number entry (an unparsable
  row) is not below the threshold, so it counts as valid and spreads into
  the errors stepped from it.
- **Processing** (`Search`, `Sorting`, `Spans`, `Statistics`, `Downsampling`,
  `MathOps`): `partition_point`, stable sorting, running extents, the series
  statistics, Largest-Triangle-Three-Buckets downsampling with its
  view-window slicer, and the tolerance-bounded nearest-x join behind series
  arithmetic.
- **2D view** (`PlotView`): fitting the window to the data (also per unit,
  normalised), pan and zoom about the mouse, the screen/data maps and
  their round trips, the x-range snapshot used for sync, and the nice-step
  grid generator with every fifth line major.
- **3D camera** (`Camera`): orbit, zoom and pan with their clamps, reset, and
  input handling.
- **Graph panel preparation** (`Panel`): per-unit normalisation of
  multi-unit plots, the series entries handed to the GPU callback (with the
  extra dots layer), the grid segments, the 3D bounding box and its map into
  the cube [-1, 1]³, the wireframe cube grid, the measurement cursors and the
  table's sort cycle and cell lookup.
- **GPU callbacks** (`GpuPlot`, `Render3D`): the CPU side of `prepare` and
  `paint` for the 2D and 3D plots: storage padding, segment and step vertex
  lists, uniform overrides, draw lists and instance counts, and the cached
  offscreen textures of the 3D pass.
- **Application shell and dialogs** (`App`, `Settings`, `DataSelection`):
  per-frame X-range propagation between synced graphs, sync/unsync edits,
  drag-and-drop reordering, ingestion of selected columns, the screenshot
  crop, the settings dialog (selection, swap, unit conversion, cached
  statistics, math) and the data selection dialog (offered columns and the
  OK result).

Doubles are modelled as `F64 = Fin(real) | NaN` wherever not-a-number can
reach the logic, and as `real` only for values the program has already
filtered to finite ones (statistics, LTTB x, the join's x values, view
bounds) or that are constants and user inputs. LTTB bucket bounds are
modelled with exact arithmetic: there the last bucket is empty for every
input (its upper bound equals its lower bound), so the final point is chosen
twice; the model keeps that behaviour and
`Downsampling.LastBucketRepeatsFinalPoint` exhibits it. The program truncates
a rounded double product instead, which can land one lower: with 63 points
and target 9, `7.0 * (61.0 / 7.0)` is `60.99999999999999`, so its last bucket
is `[61, 62)` and it can keep index 61 before the final 62 (for instance
`[0, 16, 22, 27, 36, 52, 55, 61, 62]`), where the exact model's last bucket is
`[62, 62)` and it keeps 62 twice.

## Model

| member | source | states |
|---|---|---|
| Common.Abs | src/processing/math_ops.rs:68 | `f64::abs`: non-negative and equal to the value or its negation |
| Common.Clamp | src/plot3d/camera.rs:89 | `clamp(lo, hi)`: inside `[lo, hi]`, unchanged inside, the nearer bound outside |
| Common.FAdd | src/processing/math_ops.rs:79 | a sum is a number exactly when both operands are numbers |
| Common.FSub | src/processing/math_ops.rs:80 | a difference is a number exactly when both operands are numbers |
| Common.FMul | src/processing/math_ops.rs:81 | a product is a number exactly when both operands are numbers |
| Common.FiniteMembers | src/processing/statistics.rs:16 | the finite filter keeps exactly the finite values and never lengthens the input |
| Common.FiniteOfAllFinite | src/processing/statistics.rs:16 | filtering values that are all finite gives them back unchanged |
| Common.FSumFinite | src/processing/downsampling.rs:33-36 | a running f64 sum stays a number exactly when every term is a number |
| Common.Lower | src/data/unit_inference.rs:4 | ASCII `to_lowercase`: same length, each upper-case letter mapped to lower case and nothing else changed |
| Common.ContainsFromMeans | src/data/unit_inference.rs:6-25 | the substring search from position `k` succeeds exactly when the pattern occurs at some position at or after `k` |
| Common.PrefixBefore | src/ui/settings_dialog.rs:488-492 | the part of a string before the first separator: a prefix with no earlier occurrence, followed by the separator when shorter than the string |
| Spans.Include | src/processing/statistics.rs:22-23 | one `min`/`max` fold step: the new extent holds the value and the old extent, and each bound is the value or the old bound |
| Spans.ExtendBounds | src/processing/statistics.rs:22-23 | folding values into an extent: empty only when both are empty, covers every value, each bound is a value or an old bound |
| Spans.SpanOfIsMinMax | src/processing/statistics.rs:22-23 | the fold from the infinities gives the least and greatest value, both members of the input, or nothing for no values |
| Spans.ExtendAppend | src/processing/statistics.rs:22-23 | folding over a concatenation is folding the two halves in turn |
| Spans.AccumulateSpan | src/processing/statistics.rs:22-23 | the loop that folds values into an extent computes the fold |
| Search.AdjacentSortedIsSorted | src/processing/downsampling.rs:88 | `windows(2).all(w[0] <= w[1])` holds exactly when the sequence is sorted |
| Search.LeadingCountSplits | src/processing/downsampling.rs:93-94 | the partition point: every element before it satisfies the predicate, the one at it does not, and on a partitioned sequence none after it does |
| Search.SplitIsLeadingCount | src/processing/downsampling.rs:93-94 | any split point with the predicate true before and false after is the partition point |
| Search.SortedPartitioned | src/processing/downsampling.rs:93-94 | a sorted sequence is partitioned by `v < c` and by `v <= c` |
| Search.PartitionPoint | src/processing/math_ops.rs:60 | binary search `partition_point` on a partitioned sequence returns the first index where the predicate fails |
| Search.LeadingCountMonotone | src/processing/downsampling.rs:93-94 | a larger threshold never moves the partition point left, and `v < c` never splits after `v <= c` |
| Sorting.InsertPos | src/processing/statistics.rs:27 | insertion point: after every element with a key not above the new one, before the first larger key |
| Sorting.InsertBy | src/processing/statistics.rs:27 | inserting adds exactly the new element |
| Sorting.InsertByAt | src/processing/statistics.rs:27 | the inserted sequence element by element: the prefix, the new element, then the shifted rest |
| Sorting.InsertBySorted | src/processing/statistics.rs:27 | insertion keeps a sequence sorted by key |
| Sorting.InsertByStable | src/processing/math_ops.rs:51 | inserting a larger index keeps equal keys in index order (`sort_by` is stable) |
| Sorting.SortBy | src/processing/statistics.rs:27 | `sort_by` with a key comparison: sorted by key and a permutation of the input |
| Sorting.Range | src/processing/math_ops.rs:50 | `(0..n).collect()`: the indices `0..n` in order |
| Sorting.SortIndicesBy | src/processing/math_ops.rs:50-51 | the sorted index vector: a permutation of `0..n`, sorted by key, equal keys in index order |
| Sorting.SortedIndicesArePermutation | src/processing/math_ops.rs:50-52 | a permutation of `0..n` has length `n`, holds only indices below `n` and holds each of them |
| Statistics.SquaredDeviationsNonNegative | src/processing/statistics.rs:34 | the sum of squared deviations is never negative |
| Statistics.SumBounds | src/processing/statistics.rs:25 | a sum of `n` values in `[lo, hi]` lies in `[n·lo, n·hi]` |
| Statistics.MeanBetween | src/processing/statistics.rs:25 | the mean lies between the smallest and the largest value |
| Statistics.MedianBetween | src/processing/statistics.rs:27-32 | the median of a sorted rearrangement lies between the smallest and the largest value |
| Statistics.Summarise | src/processing/statistics.rs:21-45 | for non-empty values, in any order: the count, extremes that are members and bound every value, peak-to-peak, a mean and a median between the extremes, and a non-negative variance; the median is the middle of the values sorted (a permutation) |
| Statistics.Compute | src/processing/statistics.rs:15-46 | `None` exactly when no value is finite; otherwise the summary of the finite values |
| Downsampling.BucketBoundFacts | src/processing/downsampling.rs:17-28 | bucket bounds `floor(k·(n−2)/(target−2)) + 1` are non-negative, strictly increasing in `k`, reach `n−2` at `k = target−2` and at least `n−1` one step later |
| Downsampling.BucketOf | src/processing/downsampling.rs:23-28 | with exact arithmetic, every bucket lies in `[1, n−1]`, the next bucket ends by `n`; every bucket is non-empty except the last, which is `[n−1, n−1)` |
| Downsampling.BucketsAdjacent | src/processing/downsampling.rs:23-24 | each bucket ends where the next begins |
| Downsampling.BucketAverage | src/processing/downsampling.rs:30-38 | the loop computes the sums of the next bucket divided by its size, at least one |
| Downsampling.LargestTriangle | src/processing/downsampling.rs:41-56 | the first index of largest triangle area in the bucket (NaN areas never win), or the bucket start when the bucket is empty |
| Downsampling.ChooseInBucket | src/processing/downsampling.rs:23-56 | one pass of the bucket loop picks the point `ChosenInBucket` describes, a valid index |
| Downsampling.ChooseBuckets | src/processing/downsampling.rs:14-61 | `target - 1` points starting with the first input point, every output point an input point; one choice per bucket, each made against the previous choice |
| Downsampling.ChosenInRange | src/processing/downsampling.rs:41-56 | a choice lies in its bucket, strictly before its end unless the bucket is the last |
| Downsampling.LttbStep | src/processing/downsampling.rs:21-61 | each kept index is after the previous one; the last bucket yields `n−1` |
| Downsampling.StepsIncrease | src/processing/downsampling.rs:21-61 | steps that each increase make the whole prefix strictly increasing |
| Downsampling.LttbIndicesShape | src/processing/downsampling.rs:4-68 | with exact bucket bounds, kept indices are strictly increasing up to `target−2`, the last two are both `n−1`, and all are non-decreasing |
| Downsampling.KeptSorted | src/processing/downsampling.rs:4-68 | points kept in index order from sorted x are themselves sorted, so downsampled time series stay in x order |
| Downsampling.LttbDownsample | src/processing/downsampling.rs:4-68 | short input or `target < 3` is returned unchanged; otherwise exactly `target` points, the first and last input points at the ends, chosen by the LTTB rule; sorted x stays sorted |
| Downsampling.ViewWindowCoversView | src/processing/downsampling.rs:93-96 | on sorted x the slice `[start, end)` is well formed and holds every point inside the view |
| Downsampling.ViewWindowLeftNeighbour | src/processing/downsampling.rs:93 | at most one point before the view is kept: the neighbour just left of it, when one exists |
| Downsampling.ViewWindowRightNeighbour | src/processing/downsampling.rs:94 | at most one point after the view is kept: the neighbour just right of it, when one exists |
| Downsampling.ViewBoundsMonotone | src/processing/downsampling.rs:93-94 | widening the view never moves the slice start right or the slice end left |
| Downsampling.InWindow | src/processing/downsampling.rs:104-111 | the linear filter keeps exactly the points with x in the view, y alongside |
| Downsampling.InWindowByIndices | src/processing/downsampling.rs:104-111 | the filtered window is, point by point, the x and y at the ascending positions whose x lies in the view |
| Downsampling.DownsampleForView | src/processing/downsampling.rs:75-119 | no data gives nothing; sorted x: LTTB of the partition-point slice; unsorted x: LTTB of the filtered points; the result is the view downsampling of its input |
| Downsampling.LastBucketRepeatsFinalPoint | src/processing/downsampling.rs:23-28 | with ten points and target four the last bucket is empty, so the final input point is kept twice |
| MathOps.SymbolsAndLabels | src/processing/math_ops.rs:11-27 | symbols and labels are distinct per operation; each symbol is one character and each label ends with the symbol in parentheses |
| MathOps.Apply | src/processing/math_ops.rs:78-89 | division by a divisor below `f64::EPSILON` in magnitude gives NaN; a NaN operand gives NaN; a numeric quotient times the divisor is the dividend; other operations on numbers give numbers |
| MathOps.Probe | src/processing/math_ops.rs:62-74 | the candidate probe finds a candidate exactly when the sorted x values are non-empty |
| MathOps.ProbeIsNearest | src/processing/math_ops.rs:60-74 | on sorted values the probed candidate is at least as close as any value, and on a tie the left neighbour wins |
| MathOps.Step | src/processing/math_ops.rs:58-94 | one iteration contributes at most one pair |
| MathOps.MatchesSnoc | src/processing/math_ops.rs:58-94 | the pairs for one more x1 value are the earlier pairs followed by that value's step |
| MathOps.SortedValuesSorted | src/processing/math_ops.rs:50-52 | `sorted_x2` is sorted and is `x2` read through the sorted indices |
| MathOps.ProbePicksNearest | src/processing/math_ops.rs:58-74 | the probed index names an x2 value at least as close to `xv` as every x2 value |
| MathOps.StepCorrect | src/processing/math_ops.rs:58-94 | an x1 value yields a pair exactly when some x2 value lies within tolerance, and the pair is nearest within tolerance |
| MathOps.MatchesBelow | src/processing/math_ops.rs:58-95 | every pair names a valid x1 index |
| MathOps.MatchesIncreasing | src/processing/math_ops.rs:58-95 | pairs come in strictly increasing x1 order |
| MathOps.NearestWithinPrefix | src/processing/math_ops.rs:58-95 | a nearest pair for a prefix of x1 is a nearest pair for all of x1 |
| MathOps.MatchesNearest | src/processing/math_ops.rs:58-95 | every pair joins an x1 value to a nearest x2 value within tolerance |
| MathOps.PairedEarlier | src/processing/math_ops.rs:58-95 | a later step does not change whether an earlier x1 index is paired |
| MathOps.PairedLast | src/processing/math_ops.rs:58-95 | the newest x1 index is paired exactly when its step is non-empty |
| MathOps.MatchesComplete | src/processing/math_ops.rs:58-95 | an x1 index is paired exactly when some x2 value lies within tolerance of it |
| MathOps.Closer | src/processing/math_ops.rs:69 | any finite difference beats the initial infinity |
| MathOps.ProbeCandidates | src/processing/math_ops.rs:63-74 | the loop over `pos−1` and `pos` finds the probed candidate, its original x2 index and its difference |
| MathOps.JoinNearest | src/processing/math_ops.rs:54-95 | the loop over x1 builds exactly the pairs of `Matches`, with x from x1 and y the operation applied to the paired values |
| MathOps.PerformMath | src/processing/math_ops.rs:41-109 | the result is the nearest-neighbour join of x1 against x2 searched in stable sorted order: an error, with the fixed message, exactly when nothing matches, and always when a side is empty; otherwise one point per pair in x1 order, x from x1 and y the operation on the paired values, with the match count and `min(len x1, len x2)` |
| MathOps.MatchesInRange | src/processing/math_ops.rs:58-95 | every pair names a valid x1 position and a valid x2 position |
| MathOps.JoinedShape | src/processing/math_ops.rs:41-109 | a join that fails fails with the fixed message, an empty side always fails, and a success has between 1 and `len x1` points with as many y values as x values |
| MathOps.EmptySideFails | src/processing/math_ops.rs:97-98 | an empty side matches nothing, so the operation fails |
| MathOps.MatchesAtMost | src/processing/math_ops.rs:58-95 | each x1 value contributes at most one pair, so there are never more matches than x1 values |
| MathOps.IncreasingAtLeastIndex | src/processing/math_ops.rs:58-95 | with strictly increasing x1 indices the k-th pair has index at least k |
| MathOps.AllPositionsInOrder | src/processing/math_ops.rs:58-95 | when the first `n` indices are all paired, pair k has index k up to `n` |
| MathOps.PositionsCover | src/processing/math_ops.rs:58-95 | pairs covering exactly `0..n` in increasing order are pair k at index k |
| MathOps.SelfPaired | src/processing/math_ops.rs:58-95 | a series against itself with non-negative tolerance pairs every index |
| MathOps.SelfNearest | src/processing/math_ops.rs:58-95 | with distinct x, a nearest partner of a value in its own series is itself |
| MathOps.SelfMatches | src/processing/math_ops.rs:58-95 | a series with distinct x against itself pairs each index with itself, in order |
| MathOps.SubtractSelf | src/processing/math_ops.rs:41-109 | subtracting a finite series with distinct x from itself matches every point and gives zeros |
| MathOps.DivideAligned | src/processing/math_ops.rs:41-109 | dividing two finite series on the same distinct x matches every point and divides pointwise, NaN for a near-zero divisor |
| Series.ColorForIndex | src/state/data_series.rs:19-21 | an opaque colour, never the unset colour |
| Series.ColorForIndexPeriodic | src/state/data_series.rs:4-21 | every index gets a palette colour, colours repeat every 12 indices and the 12 palette colours are distinct |
| Series.InterpolationLabel | src/state/data_series.rs:37-43 | every label is non-empty |
| Series.InterpolationLabelsDistinct | src/state/data_series.rs:37-43 | different modes have different labels |
| Series.NewSeries | src/state/data_series.rs:88-112 | a 2D series holds the given data and no z; linear, dots shown, visible, width 2, with an empty downsampling cache that needs filling |
| Series.NewSeries3d | src/state/data_series.rs:114-139 | a 3D series holds the given data with the same defaults; it has z exactly when z is non-empty |
| Series.PointCount | src/state/data_series.rs:149-151 | the point count is the number of x values |
| Series.NewSeries3dWithoutZ | src/state/data_series.rs:88-151 | a 3D series built without z is the 2D series and counts its x values |
| State.Without | src/state/app_state.rs:38-40 | `retain` drops the removed id: keeps exactly the other ids and never grows |
| State.WithoutAbsent | src/state/app_state.rs:38-40 | removing an id that is not there changes nothing |
| State.WithoutTwice | src/state/app_state.rs:38-40 | removing the same id twice is removing it once |
| State.MinOf | src/state/app_state.rs:57 | the least id of a non-empty list, a member of it |
| State.GroupId | src/state/app_state.rs:52-61 | no group without partners; otherwise the least of the graph's own id and its partners |
| State.PairSharesGroup | src/state/app_state.rs:52-61 | two graphs linked only to each other get the same group id |
| State.KeepOthers | src/state/app_state.rs:43 | `retain` drops the removed graph: keeps exactly the graphs with another id, and never grows |
| State.KeepOthersUnique | src/state/app_state.rs:43 | removal keeps graph ids unique |
| State.KeepOthersOwnViews | src/state/app_state.rs:43 | removal keeps every graph owning its own view state |
| State.KeepOthersAbsent | src/state/app_state.rs:43 | removing an id no graph has changes nothing |
| State.KeepOthersRemovesOne | src/state/app_state.rs:43 | removing a present id removes exactly one graph when ids are unique |
| State.StripPartner | src/state/app_state.rs:38-40 | every graph's partner list loses the removed id and nothing else |
| State.RecomputeGroups | src/state/app_state.rs:52-61 | every graph's group id is recomputed from its id and partners |
| State.MinPartner | src/state/app_state.rs:57 | the loop computing `min()` of a non-empty partner list finds the least id |
| State.MinOfUnique | src/state/app_state.rs:57 | any member bounding the list from below is its minimum |
| State.FirstWithId | src/state/app_state.rs:63-69 | `iter().find(g.id == id)`: the first graph with that id, `None` exactly when no graph has it |
| State.AppState.constructor | src/state/app_state.rs:14-22 | a new application has one empty, unsynced graph and a consistent state |
| State.AppState.AddGraph | src/state/app_state.rs:24-27 | appends one fresh empty graph; the state stays consistent when the id is new |
| State.AppState.GraphById | src/state/app_state.rs:63-65 | the first graph with the id, `None` exactly when no graph has it |
| State.AppState.RecomputeSyncGroups | src/state/app_state.rs:52-61 | every graph's group id is the least of its own id and its direct partners' ids, or none without partners |
| State.AppState.RemoveGraph | src/state/app_state.rs:29-50 | drops the graph, removes its id from every partner list and recomputes groups; no remaining graph has or names the id; consistency is kept |
| Graph.AxisFor | src/state/graph_state.rs:142-148 | a new y axis is auto-ranged over `[0, 1]` and labelled `Y Axis (unit)` |
| Graph.FindSeries | src/state/graph_state.rs:157 | `position(s.id == id)`: the first series with the id, or none when no series has it |
| Graph.Colored | src/state/graph_state.rs:136-139 | an unset (all-zero) colour is replaced by a palette colour; a set colour is kept; nothing else changes |
| Graph.UnitYsSnoc | src/state/graph_state.rs:197-205 | one more series adds its in-window finite y values exactly when it is visible and of the unit |
| Graph.UnitYSpan | src/state/graph_state.rs:194-205 | the loop computes the extent of the in-window finite y values of the unit's visible series |
| Graph.GraphState.constructor | src/state/graph_state.rs:110-133 | a new graph: title "Title", no series, auto-scaled y, no axes, no sync, 2D, default view and camera |
| Graph.GraphState.AddSeries | src/state/graph_state.rs:135-154 | appends the series coloured from the counter, bumps the counter, adds a y axis only for a new unit; every unit keeps an axis |
| Graph.GraphState.RemoveSeriesById | src/state/graph_state.rs:156-165 | removes the first series with the id, and its unit's axis when no series uses the unit any more; an unknown id changes nothing |
| Graph.GraphState.SeriesLabels | src/state/graph_state.rs:167-169 | the labels of the series, in order |
| Graph.GraphState.XRange | src/state/graph_state.rs:172-191 | `None` exactly when no visible series has x values; otherwise the least and greatest visible x, both present |
| Graph.GraphState.Padded | src/state/graph_state.rs:208-209 | padding by 5% per side contains the extent and widens it by 10% |
| Graph.GraphState.YRangeForUnit | src/state/graph_state.rs:194-215 | `None` exactly when the unit has no finite y inside the x range; otherwise its extent padded by 5% per side, with no fallback for a zero span |
| Graph.AnyUsesUnit | src/state/graph_state.rs:159 | `any(s.unit == unit)` holds exactly when some series has the unit |
| PlotView.ScreenToData | src/render/plot_interaction.rs:205-211 | the rectangle's left/right edges map to the x bounds, its top to the top y bound and its bottom to the bottom one |
| PlotView.DataToScreen | src/render/plot_interaction.rs:214-221 | the window's bounds map to the rectangle's edges, y flipped |
| PlotView.AxisRoundTrip | src/render/plot_interaction.rs:205-221 | along one axis, data to screen to data is the identity |
| PlotView.FlippedAxisRoundTrip | src/render/plot_interaction.rs:205-221 | along the flipped y axis, data to screen to data is the identity |
| PlotView.ScaleBack | src/render/plot_interaction.rs:206-208 | scaling out and back gives the fraction back |
| PlotView.DataScreenDataX | src/render/plot_interaction.rs:205-221 | data to screen and back keeps x |
| PlotView.DataScreenDataY | src/render/plot_interaction.rs:205-221 | data to screen and back keeps y |
| PlotView.DataScreenData | src/render/plot_interaction.rs:205-221 | data to screen and back is the identity |
| PlotView.ScreenDataScreenX | src/render/plot_interaction.rs:205-221 | screen to data and back keeps x |
| PlotView.ScreenDataScreenY | src/render/plot_interaction.rs:205-221 | screen to data and back keeps y |
| PlotView.ScreenDataScreen | src/render/plot_interaction.rs:205-221 | screen to data and back is the identity |
| PlotView.ScreenDataInverse | src/render/plot_interaction.rs:205-221 | the two conversions are mutually inverse on non-degenerate rectangles and windows |
| PlotView.Pad | src/render/plot_interaction.rs:118-121 | the padding is positive for an ordered extent: 5% of the span, or 0.5 when that is below `1e-15` |
| PlotView.Padded | src/render/plot_interaction.rs:118-126 | the padded bounds strictly contain the extent |
| PlotView.FitWindow | src/render/plot_interaction.rs:90-128 | no fit without visible x or finite y; otherwise a non-degenerate window strictly containing every visible x and finite y |
| PlotView.FitXNormalized | src/render/plot_interaction.rs:131-159 | no fit without visible x; otherwise an x range strictly containing every visible x, the same as the full fit's |
| PlotView.AutoScaleY | src/render/plot_interaction.rs:55-80 | no change without finite y inside the x range; otherwise a y range strictly containing each of them |
| PlotView.FitExample | src/render/plot_interaction.rs:90-128 | one series over x 0..10 and y −5..5 fits to x −0.5..10.5 and y −5.5..5.5 |
| PlotView.PanWindow | src/render/plot_interaction.rs:164-173 | dragging shifts the window by the drag in data units and keeps its size |
| PlotView.ZoomFactor | src/render/plot_interaction.rs:184-186 | the zoom factor lies in `[0.5, 2]`, below 1 for scroll up and above 1 for scroll down |
| PlotView.ZoomAboutAnchor | src/render/plot_interaction.rs:189-193 | zooming about a point scales the span by the factor and keeps the point's relative position |
| PlotView.ZoomWindow | src/render/plot_interaction.rs:184-196 | no scroll or no mouse leaves the window; otherwise both spans scale by the zoom factor |
| PlotView.ZoomAxisFixed | src/render/plot_interaction.rs:189-193 | along one axis, the data value at the mouse's fraction is kept by the zoom |
| PlotView.ZoomKeepsMouseFixedX | src/render/plot_interaction.rs:188-194 | the data x under the mouse is the same before and after a zoom |
| PlotView.ZoomKeepsMouseFixedY | src/render/plot_interaction.rs:188-194 | the data y under the mouse is the same before and after a zoom |
| PlotView.ZoomKeepsMouseFixed | src/render/plot_interaction.rs:188-194 | the data point under the mouse is the same before and after a zoom |
| PlotView.PlotViewState.constructor | src/render/plot_interaction.rs:21-34 | the default view is `[0, 1] × [0, 1]`, auto-fit pending, uninitialised, with no x change recorded |
| PlotView.PlotViewState.SnapshotXRange | src/render/plot_interaction.rs:44-47 | records the x range so that no change is reported, and changes nothing else |
| PlotView.PlotViewState.SetXRange | src/render/plot_interaction.rs:224-227 | sets the x bounds and nothing else |
| PlotView.PlotViewState.AutoScaleYToVisible | src/render/plot_interaction.rs:55-80 | sets the y range to the padded extent of in-window finite y values, or leaves the view unchanged when there are none |
| PlotView.PlotViewState.AutoScaleYNormalized | src/render/plot_interaction.rs:83-86 | sets y to `[−0.05, 1.05]` and nothing else |
| PlotView.PlotViewState.FitToData | src/render/plot_interaction.rs:90-128 | fits both axes and marks the view initialised, or changes nothing when there is nothing to fit |
| PlotView.PlotViewState.FitToDataNormalized | src/render/plot_interaction.rs:131-159 | fits x, sets y to `[−0.05, 1.05]` and marks the view initialised, or changes nothing |
| PlotView.PlotViewState.HandleInput | src/render/plot_interaction.rs:162-202 | pans on drag then zooms about the mouse on scroll; auto-fit is set by a double click and cleared by a drag or a scroll |
| PlotView.VisibleSnoc | src/render/plot_interaction.rs:96-112 | one more series adds its values to the visible values exactly when it is visible with data |
| PlotView.VisibleSpans | src/render/plot_interaction.rs:91-112 | the loop computes the extents of the visible x and finite y values |
| PlotView.VisibleXSpan | src/render/plot_interaction.rs:132-145 | the loop computes the extent of the visible x values |
| PlotView.WindowYSpan | src/render/plot_interaction.rs:56-69 | the loop computes the extent of the finite y values inside the x range |
| PlotView.AccumulateFinite | src/render/plot_interaction.rs:106-111 | the inner loop folds exactly the finite values |
| PlotView.AccumulateInWindow | src/render/plot_interaction.rs:63-68 | the inner loop folds exactly the finite y whose x is inside the range |
| PlotView.NormalizedThreshold | src/render/plot_interaction.rs:240-250 | comparing `raw / order` with a threshold is comparing `raw` with the scaled threshold |
| PlotView.NiceStep | src/render/plot_interaction.rs:238-250 | the nice step is 1, 2, 5 or 10 times the order of magnitude, at least the raw step and below 2.5 times it |
| PlotView.RoundFifth | src/render/plot_interaction.rs:261 | rounding `q + m/5` gives `q` for `m ≤ 2` and `q + 1` otherwise |
| PlotView.MajorAtFifth | src/render/plot_interaction.rs:259-261 | a grid value `(q + m/5)·step` is major exactly when `m = 0` |
| PlotView.MajorEveryFifth | src/render/plot_interaction.rs:259-261 | grid line `i` is major exactly when `i` is a multiple of 5 |
| PlotView.MinorStep | src/render/plot_interaction.rs:252 | the minor step is positive |
| PlotView.GridIndexBounds | src/render/plot_interaction.rs:254-260 | every grid index whose value is in range lies between the floor and ceiling loop bounds |
| PlotView.GridLineAt | src/render/plot_interaction.rs:259-262 | the value and major flag pushed for index `i` |
| PlotView.GridLoop | src/render/plot_interaction.rs:257-265 | the loop emits at most one line per index, every line in `[lo, hi]` with increasing values and the major flag of its value, and misses no in-range index |
| PlotView.GridLinesInRange | src/render/plot_interaction.rs:257-265 | every line the loop keeps lies in `[lo, hi]` and its flag is the rounding test for the major step applied to its value |
| PlotView.GridValuesIncrease | src/render/plot_interaction.rs:257-265 | grid values strictly increase |
| PlotView.ComputeGridLines | src/render/plot_interaction.rs:232-266 | no lines for an empty range; otherwise every minor-step multiple inside the range, strictly increasing, each flagged major exactly at the nice step |
| Camera.RotatedElevation | src/plot3d/camera.rs:37-39 | the elevation stays within `±(π/2 − 0.01)`, strictly inside the poles, and moves freely inside them |
| Camera.ZoomedDistance | src/plot3d/camera.rs:42-44 | the distance stays in `[0.1, 50]` and is the product when that lies inside |
| Camera.RotateRoundTrip | src/plot3d/camera.rs:87-90 | rotating back by the opposite deltas restores the angles when no clamping happens |
| Camera.ZoomInRepeatedly | src/plot3d/camera.rs:95-97 | repeated zooming in never increases the distance and never goes below the minimum |
| Camera.PanOffset | src/plot3d/camera.rs:112-113 | no drag, or a zero distance, moves nothing |
| Camera.OrbitalCamera.constructor | src/plot3d/camera.rs:24-34 | the default camera, within the limits |
| Camera.OrbitalCamera.Rotate | src/plot3d/camera.rs:87-90 | adds the azimuth delta and clamps the new elevation; the limits are kept |
| Camera.OrbitalCamera.Zoom | src/plot3d/camera.rs:95-97 | multiplies the distance and clamps it; the limits are kept |
| Camera.OrbitalCamera.Pan | src/plot3d/camera.rs:104-114 | moves the target along the right and up vectors, scaled by the distance, and nothing else |
| Camera.OrbitalCamera.Reset | src/plot3d/camera.rs:117-119 | back to the default camera |
| Camera.OrbitalCamera.HandleInput | src/plot3d/camera.rs:127-153 | left drag rotates by the scaled deltas, right drag moves the target by the pan offset of the scaled deltas, scroll over the view zooms, double click resets; the field of view is untouched and the limits are kept |
| GpuPlot.PaddedStorage | src/render/gpu_plot.rs:305-323 | `create_storage_buffer`: the contents are the data followed by zero bytes up to the 8-byte minimum, and exactly the data when it is already that long |
| GpuPlot.SegmentPairs | src/render/gpu_plot.rs:403-408 | the line storage holds every consecutive pair of points, start then end, in order: `2(n-1)` points for `n` points |
| GpuPlot.StepPoints | src/render/gpu_plot.rs:451-460 | the step storage holds, for each consecutive pair, the start, the corner `(x1, y0)` twice and the end: `4(n-1)` points |
| GpuPlot.BuildPairs | src/render/gpu_plot.rs:403-408 | the pair-building loop produces exactly the segment pairs of the points |
| GpuPlot.BuildSteps | src/render/gpu_plot.rs:451-460 | the step-building loop produces exactly the step points of the points |
| GpuPlot.LineUniforms | src/render/gpu_plot.rs:417-419 | a line draw overrides the colour and the line width of the base uniforms and keeps every other field |
| GpuPlot.PointUniforms | src/render/gpu_plot.rs:507-509 | a points draw overrides the colour and the point radius of the base uniforms and keeps every other field |
| GpuPlot.GridCall | src/render/gpu_plot.rs:355-390 | the grid is drawn exactly when it has at least two vertices, with the line pipeline, its segments as storage, one instance per segment and its own colour and width |
| GpuPlot.SeriesCall | src/render/gpu_plot.rs:393-540 | a series is drawn exactly when it has enough points for its mode; Lines draws `n-1` segment instances, Step `2(n-1)` instances of the step points, Points `n` point instances with the point pipeline, each with the series colour and width or radius |
| GpuPlot.DrawnIndices | src/render/gpu_plot.rs:393-400 | the series that produce a draw are exactly the drawable ones, in their given order |
| GpuPlot.SeriesCalls | src/render/gpu_plot.rs:393-540 | one draw per drawable series, in series order, each the draw that series produces |
| GpuPlot.DrawList | src/render/gpu_plot.rs:340-546 | the stored draw list is the grid draw, when there is one, followed by the series draws |
| GpuPlot.DrawListSeriesOrder | src/render/gpu_plot.rs:393-543 | the k-th drawable series is the draw right after the grid offset plus k |
| GpuPlot.Draws | src/render/gpu_plot.rs:570-593 | paint issues one draw per stored call, six vertices (one quad) times the call's instance count, with the call's pipeline |
| GpuPlot.EmittedStorageNeedsNoPadding | src/render/gpu_plot.rs:305-323 | every stored draw has at least one instance and storage at least the 8-byte minimum |
| GpuPlot.CallNotEmpty | src/render/gpu_plot.rs:393-540 | a drawable series yields non-empty storage and at least one instance |
| GpuPlot.GpuPlotCallback.constructor | src/render/gpu_plot.rs:601-616 | `create_plot_paint_callback`: the callback holds the series data, grid and base uniforms and no draws yet |
| GpuPlot.GpuPlotCallback.Prepare | src/render/gpu_plot.rs:340-546 | without GPU resources nothing changes; otherwise the stored draws become the draw list of the grid and series |
| GpuPlot.GpuPlotCallback.Paint | src/render/gpu_plot.rs:548-594 | nothing is drawn without resources, without draws or with an empty viewport; otherwise every stored draw is issued in order |
| GpuPlot.BuildSeriesCalls | src/render/gpu_plot.rs:393-540 | the series loop produces exactly the series draws |
| GpuPlot.SeriesDrawCall | src/render/gpu_plot.rs:400-538 | one pass of the series loop produces the draw the series' mode calls for |
| Render3D.PaddedStorage3D | src/plot3d/renderer.rs:496-512 | `create_storage_buffer_3d`: the data followed by zero bytes up to the 16-byte minimum |
| Render3D.CallbackResources.constructor | src/plot3d/renderer.rs:474-489 | `init_3d_resources` registers the target format; no offscreen textures are cached yet and none has been allocated |
| Render3D.TextureSize | src/plot3d/renderer.rs:539-545 | the offscreen texture has the viewport's width and height, each at least one, and the target format |
| Common.KeptIndices | src/plot3d/renderer.rs:635-716 | the indices kept by a filter are exactly those of the kept items, ascending |
| Render3D.LineDraw | src/plot3d/renderer.rs:635-674 | a line set is drawn with the line pipeline, six vertices per segment instance, its own colour and width and the texture's resolution |
| Render3D.ScatterDraw | src/plot3d/renderer.rs:677-716 | a scatter set is drawn with the scatter pipeline, one instance per position, its own colour and size and the texture's resolution |
| Render3D.LineDraws | src/plot3d/renderer.rs:635-674 | one line draw per line set with at least two vertices, in order |
| Render3D.ScatterDraws | src/plot3d/renderer.rs:677-716 | one scatter draw per non-empty scatter set, in order |
| Render3D.LinesBeforeScatter | src/plot3d/renderer.rs:635-716 | in the scene pass no line draw follows a scatter draw |
| Render3D.DrawLines | src/plot3d/renderer.rs:635-674 | the line loop produces exactly the line draws |
| Render3D.DrawScatter | src/plot3d/renderer.rs:677-716 | the scatter loop produces exactly the scatter draws |
| Render3D.Plot3DCallback.constructor | src/plot3d/renderer.rs:780-799 | `create_3d_paint_callback`: the callback holds the scene, uniforms, background and viewport and has not rendered yet |
| Render3D.Plot3DCallback.Prepare | src/plot3d/renderer.rs:528-739 | without a target format nothing changes; otherwise the textures are cached at the viewport size and reallocated only when size or format changed, the scene draws are the line draws then the scatter draws, and the blit reads that texture |
| Render3D.Plot3DCallback.Paint | src/plot3d/renderer.rs:741-773 | nothing is drawn without resources, without a prepared blit or with an empty viewport; otherwise one full-screen quad blit |
| Render3D.TwoFrames | src/plot3d/renderer.rs:549-595 | two prepares at the same size allocate textures at most once, and not at all when they are already cached at that size |
| Panel.Normalize | src/ui/graph_panel.rs:301-308 | `UnitRange::normalize`: 0.5 for a range narrower than 1e-15; otherwise a number exactly when `y` is, and the fraction of the span at which `y` lies |
| Panel.NormalizeRoundTrip | src/ui/graph_panel.rs:301-313 | `denormalize(normalize(y)) == y` for a non-degenerate range, and the range's ends map to 0 and 1 |
| Panel.Denormalize | src/ui/graph_panel.rs:310-313 | `UnitRange::denormalize`: 0 and 1 map to the range's ends, and for a non-degenerate range normalising the result gives the fraction back; `NormalizeRoundTrip` is the other direction |
| Panel.FirstVisible | src/ui/graph_panel.rs:318-321 | the first visible series carrying a unit, and no earlier one does |
| Panel.UnitOrder | src/ui/graph_panel.rs:316-324 | the unit order has no duplicates and holds exactly the units of visible series |
| Panel.FirstVisiblePrefix | src/ui/graph_panel.rs:318-321 | appending series does not move the first visible series of a unit already present |
| Panel.FirstVisibleLast | src/ui/graph_panel.rs:318-321 | a unit first seen on the last series has its first appearance there |
| Panel.UnitOrderPair | src/ui/graph_panel.rs:316-324 | the induction step of first-appearance order: a pair ordered before the last series stays ordered after it |
| Panel.UnitOrderFirstAppearance | src/ui/graph_panel.rs:316-324 | units are listed in the order of their first visible appearance |
| Panel.CollectUnitOrder | src/ui/graph_panel.rs:316-324 | `collect_unit_order`'s loop computes exactly the unit order |
| Panel.RangeOf | src/ui/graph_panel.rs:326-351 | no range without values; otherwise a padded range with `y_min < y_max` strictly enclosing every value |
| Panel.NormalizeIn | src/ui/graph_panel.rs:484-493 | normalising against a unit's range, and not-a-number when the unit has no range |
| Panel.NormalizeInside | src/ui/graph_panel.rs:301-308 | a value strictly inside a range normalises strictly between 0 and 1 |
| Panel.NormalizedInsideUnit | src/ui/graph_panel.rs:326-351 | every finite value of a visible series of a unit normalises strictly between 0 and 1 against that unit's range |
| Panel.UnitSpan | src/ui/graph_panel.rs:329-341 | the min/max loop over a unit's visible series yields the extent of their finite values |
| Panel.ComputeUnitRanges | src/ui/graph_panel.rs:326-351 | `compute_unit_ranges`: one range per listed unit, in order, each the padded range of that unit's values |
| Panel.AxisFromSpan | src/ui/graph_panel.rs:782-793 | a data-less axis becomes `[-1, 1]`; an axis at least 1e-12 wide keeps its extent; a narrower one is widened; always `min < max` and the data stays inside |
| Panel.BoundsCoverData | src/ui/graph_panel.rs:752-796 | every finite coordinate of a visible series lies within the 3D bounds of its axis |
| Panel.VisibleValuesStep | src/ui/graph_panel.rs:756-780 | one more series extends each axis's extent by that series' finite values |
| Panel.AxisSpans | src/ui/graph_panel.rs:753-780 | the bounds loop yields the extent of the finite visible values on each axis, z only from series that have z |
| Panel.ComputeDataBounds3D | src/ui/graph_panel.rs:752-796 | `compute_data_bounds_3d`: per axis, the defaulted and widened bounds of the visible data |
| Panel.NormalizeAxisIntoCube | src/ui/graph_panel.rs:799-803 | the axis minimum maps to -1, the maximum to 1, and values between them into `[-1, 1]` |
| Panel.NormalizePoint | src/ui/graph_panel.rs:799-804 | `normalize_point`: `w = 1`, a point inside the bounds lands in the cube, and a coordinate is -1 exactly at the axis minimum |
| Panel.NormalizeAxisInjective | src/ui/graph_panel.rs:799-803 | distinct values on an axis stay distinct after normalisation |
| Panel.EdgeIndexFindsEdges | src/ui/graph_panel.rs:817-821 | each of the twelve edges is found from either of its endpoints |
| Panel.CubeEdgesAreTheEdges | src/ui/graph_panel.rs:811-821 | the edge table joins corners of the cube along one axis each, and lists no edge twice |
| Panel.InteriorLines | src/ui/graph_panel.rs:829-847 | each division adds eight endpoints inside the cube, pairwise parallel to an axis |
| Panel.EdgeSegments | src/ui/graph_panel.rs:823-826 | the edge loop emits 24 corner endpoints, each pair an axis-parallel cube edge |
| Panel.Build3dGrid | src/ui/graph_panel.rs:807-850 | `build_3d_grid`: 56 endpoints inside the cube, every pair axis-parallel, the first 24 on corners |
| Panel.PlaceCursor | src/ui/graph_panel.rs:1296-1304 | a click fills the first free cursor, and with both set starts over with a new first cursor; the mode is kept |
| Panel.ThreeClicks | src/ui/graph_panel.rs:1296-1304 | two clicks set both cursors and a third leaves only the first, at the new value |
| Panel.CursorValue | src/ui/graph_panel.rs:1290-1294 | a value exactly when a cursor mode is on: the x of the mouse in vertical mode, its y in horizontal mode |
| Panel.HandleCursorClick | src/ui/graph_panel.rs:1283-1307 | `handle_cursor_click`: only a secondary click with a mouse in a cursor mode places a cursor, at the mouse's data position; otherwise nothing changes |
| Panel.NextSort | src/ui/graph_panel.rs:1459-1463 | a click on another column, or with no sort, sorts that column ascending; the result always concerns the clicked column |
| Panel.SortCycleHasPeriodThree | src/ui/graph_panel.rs:1459-1463 | clicking one column cycles ascending, descending, unsorted, and back after three clicks |
| Panel.CycleSort | src/ui/graph_panel.rs:1458-1464 | `cycle_sort` sets the table sort to the next state of the cycle |
| Panel.TableValue | src/ui/graph_panel.rs:1466-1478 | column 0 reads the first series' x, column `c` the y of series `c-1`, and a missing series or row reads not-a-number |
| Panel.MajorSegments | src/ui/graph_panel.rs:443-457 | two endpoints per major grid line and none for minor ones |
| Panel.MajorSegmentsSpanView | src/ui/graph_panel.rs:443-457 | each grid segment crosses the whole view at its line's position, relative to the view origin |
| Panel.GridSegments | src/ui/graph_panel.rs:441-457 | the grid segments are the vertical major lines then the horizontal ones |
| Panel.Position | src/ui/graph_panel.rs:486 | the first index of a unit in the unit order |
| Panel.PlotYs | src/ui/graph_panel.rs:484-493 | with several units a series' y values are normalised against its unit's range; otherwise they are unchanged |
| Panel.PlotPoints | src/ui/graph_panel.rs:496-501 | at most one point per sample, each from a sample whose y is a number, offset by the view origin |
| Panel.PlotPointsAllFinite | src/ui/graph_panel.rs:496-501 | when every y is a number, every sample becomes a point, in order |
| Panel.ColorOf | src/ui/graph_panel.rs:503-509 | colour channels become fractions in `[0, 1]` |
| Panel.ModeOf | src/ui/graph_panel.rs:511-515 | the points draw mode is used exactly for points interpolation |
| Panel.SeriesEntries | src/ui/graph_panel.rs:517-537 | the first entry uses the series' mode with radius width+1; a second points entry with radius width+0.5 is added exactly when dots are shown, the mode is not points and there are fewer than 10000 points |
| Panel.EntryCountBounds | src/ui/graph_panel.rs:466-538 | one or two entries per visible series with data |
| Panel.LttbAtMost | src/processing/downsampling.rs:4-68 | an LTTB result has no more points than the target |
| Panel.EntriesForStep | src/ui/graph_panel.rs:466-538 | one pass of the series loop appends that series' entries when it is visible with data, and nothing otherwise |
| Panel.PlotSeries | src/ui/graph_panel.rs:474-501 | a series of at most 10000 samples is plotted whole after normalisation and offset; a longer one is plotted from the view downsampling of its points to at most 10000, normalised and offset the same way |
| Panel.BuildSeriesData | src/ui/graph_panel.rs:466-538 | the series loop builds the entries of every visible series with data, in order, from points of at most 10000 each, each series plotted as `PlotSeries` plots it |
| Panel.PlotYsInUnitBand | src/ui/graph_panel.rs:484-493 | with several units every plotted y of a visible series that is a number lies strictly between 0 and 1 |
| Panel.NormalizedPointsInBand | src/ui/graph_panel.rs:484-501 | with several units every drawn point of a visible series lies strictly inside the unit band, relative to the view origin |
| Panel.UnitRanges | src/ui/graph_panel.rs:370-375 | one range per unit in the unit order, each that unit's padded range |
| Panel.UnitValuesHold | src/ui/graph_panel.rs:326-341 | the finite y values of a visible series are among its unit's values |
| Panel.PrepareUnits | src/ui/graph_panel.rs:369-375 | the unit order, several units exactly when more than one, and ranges only in that case |
| App.Fanout | src/app.rs:770-772 | one propagation per sync partner, in partner order, each carrying the source's x range |
| App.LastFor | src/app.rs:776-781 | the x range a graph ends with is that of the last propagation aimed at it, and none when no propagation targets it |
| App.CollectPropagations | src/app.rs:765-774 | the first pass collects, for every synced graph whose x range changed, one propagation per partner, in graph order |
| App.ApplyPropagations | src/app.rs:776-781 | the second pass leaves each graph with the x range of the last propagation aimed at it, and untouched when none is |
| App.Propagate | src/app.rs:777-780 | one propagation sets the x range of the graph with the target id and of no other graph |
| App.SnapshotAll | src/app.rs:784-786 | after the third pass no graph reports a changed x range |
| App.SyncFrame | src/app.rs:760-787 | the sync step: every graph takes the range last propagated to it, the others keep theirs, and all ranges are snapshotted |
| App.SingleSourceFanout | src/app.rs:765-774 | with exactly one changed synced graph, the propagations are its partners with its range |
| App.NoSources | src/app.rs:765-774 | without a changed synced graph nothing is propagated |
| App.SingleSourceReachesPartners | src/app.rs:760-787 | when one synced graph moves, each of its partners receives its x range |
| App.Unsync | src/app.rs:832-847 | toggling sync on a synced graph clears its partner list, removes it from each partner's list, leaves other graphs alone, and recomputes the group ids; an unsynced graph changes nothing here |
| App.UnlinkGraph | src/app.rs:836-847 | the unsync steps for one graph: its list emptied, its id dropped from its partners' lists, group ids recomputed |
| App.DropFromPartner | src/app.rs:839-841 | `retain` on one partner removes the graph's id from that partner's list only |
| App.DropFromPartners | src/app.rs:838-842 | the loop over partners removes the graph's id from each partner's list and no other |
| App.AddMissing | src/app.rs:1068-1072 | the members missing from a list are appended after it, so it holds exactly its old entries and the other group members |
| App.AddMissingClean | src/app.rs:1068-1072 | appending missing members adds no duplicate and never the graph itself |
| App.AddMissingSaturated | src/app.rs:1068-1072 | a list that already holds every other member is unchanged |
| App.AddMissingTwice | src/app.rs:1068-1072 | applying the same group twice changes nothing more |
| App.ChainedSyncTwoGroupIds | src/app.rs:1059-1076 | partner lists are not closed transitively: syncing 1 with 3 and then an unsynced 5 with 3 leaves 3 with partners [1, 5] and group id 1, but 5 with partners [3] and group id 3 |
| App.SyncApply | src/app.rs:1059-1076 | every member of the chosen group lists every other member as a partner, graphs outside the group are untouched, and group ids are recomputed |
| App.JoinGroup | src/app.rs:1067-1074 | the loop over the group adds the missing members to each member's list, and to no other graph's list |
| App.JoinMember | src/app.rs:1068-1073 | one member's list gains the missing members of the group |
| App.AddOthers | src/app.rs:1069-1072 | the inner loop appends exactly the missing other members |
| App.InsertAt | src/app.rs:750-751 | the insertion index after removal lies within the list |
| App.Reordered | src/app.rs:748-753 | moving a graph keeps the number of graphs |
| App.ReorderedIndex | src/app.rs:748-753 | each position of the moved list holds the graph from a computed old position |
| App.ReorderedIsPermutation | src/app.rs:748-753 | moving a graph is a permutation and puts the moved graph at the insertion index |
| App.ReorderSourceInjective | src/app.rs:748-753 | distinct new positions come from distinct old positions |
| App.ReorderKeepsValid | src/app.rs:748-753 | reordering keeps the ids unique and every graph's own view |
| App.Reorder | src/app.rs:746-754 | a move from a valid index is the reordered list, an invalid index changes nothing, the graphs are a permutation of the old ones and validity is kept |
| App.DropTarget | src/app.rs:719-724 | dropping on the top half targets the graph's index, otherwise the next one; the two targets that would not move the graph are refused |
| App.RejectedTargetsAreNoOps | src/app.rs:722-723 | inserting a graph at its own index or the next one leaves the order unchanged |
| App.AcceptedTargetsMove | src/app.rs:722-723 | any other target changes the order of distinct graphs |
| App.KeptIndices2 | src/app.rs:391-398 | the kept rows are rows where both x and y are numbers |
| App.KeptIndices2Exact | src/app.rs:391-398 | the kept rows are ascending and include every row where both x and y are numbers |
| App.Finite2 | src/app.rs:391-398 | the filtered x and y have the same length and every kept y is a number |
| App.Finite2Length | src/app.rs:391-398 | one filtered pair per kept row |
| App.Finite2Row | src/app.rs:391-398 | the k-th filtered pair is the x and y of the k-th kept row |
| App.KeptIndices3 | src/app.rs:364-376 | the kept rows are rows where x, y and z are all numbers |
| App.KeptIndices3Exact | src/app.rs:364-376 | the kept rows are ascending and include every row where x, y and z are numbers |
| App.Finite3 | src/app.rs:364-376 | the filtered x, y and z have the same length and every kept y is a number |
| App.Finite3Length | src/app.rs:364-376 | one filtered triple per kept row |
| App.Finite3Row | src/app.rs:364-376 | the k-th filtered triple is the x, y and z of the k-th kept row |
| App.FilterFinite2 | src/app.rs:391-398 | the 2D filter loop computes exactly the filtered pairs |
| App.FilterFinite3 | src/app.rs:364-376 | the 3D filter loop computes exactly the filtered triples |
| App.IngestedSeries | src/app.rs:362-409 | a column with any finite row becomes a series of equal non-empty x and y of numbers, with the given unit, the palette colour of the series counter, the label "name (unit)" and z exactly when a z column is given; a column with none gives nothing |
| App.IngestColumn | src/app.rs:362-409 | a column with no finite row adds nothing; otherwise its series is appended, the counter and the next id advance and the unit gains an axis; the series already present are kept |
| App.ProcessColumnSelection | src/app.rs:332-412 | an empty graph takes the x axis name, datetime flag and title; a z column switches to 3D; the series appended are exactly those the y columns give in column order, each with the unit inferred from its name, and the unit axes keep covering the series |
| App.IngestColumns | src/app.rs:362-411 | the loop over y columns appends exactly the series the columns give in order, the counter and next id advancing once per appended series; the existing series are kept and every unit stays covered by an axis |
| App.IngestAllStep | src/app.rs:362-411 | the series from column `i` on are that column's series, if any, followed by the series of the columns after it |
| App.IngestFoldStep | src/app.rs:362-411 | one pass of the column loop keeps "series so far followed by the series of the remaining columns" equal to the final result |
| App.IngestAllShape | src/app.rs:362-409 | at most one series per column; the k-th has equal non-empty x and y, z exactly when a z column is given, id `id+k` and the colour of counter `counter+k` |
| App.IngestAppended | src/app.rs:362-411 | appending the series of the columns keeps the earlier series as a prefix, adds at most one per column, and each added series has equal non-empty x and y and z exactly when a z column is given |
| App.CropBounds | src/app.rs:459-462 | the crop box is clamped to the image, and equals the scaled rect where that fits |
| App.RowBytesLength | src/app.rs:466-471 | one row of a crop holds four bytes per column of the box |
| App.CroppedLength | src/app.rs:463-472 | the cropped bytes are four per pixel of the box: `cw * ch * 4` |
| App.CroppedStep | src/app.rs:466-471 | one more row of the crop appends that row's bytes |
| App.CopyRow | src/app.rs:467-470 | the inner loop copies the RGBA bytes of one row of the box |
| App.CropPixels | src/app.rs:458-472 | the nested loops produce the bytes of the box, `cw * ch * 4` of them, with saturating width and height |
| App.AllBytes | src/app.rs:474-481 | the whole image has four bytes per pixel |
| App.AllBytesAppend | src/app.rs:474-481 | the bytes of two pixel runs are the bytes of each, concatenated |
| App.RowBytesIsSlice | src/app.rs:466-471 | a row copied from column 0 is the bytes of that run of pixels |
| App.FullCropPrefix | src/app.rs:463-472 | cropping whole rows yields the bytes of the first rows of the image |
| App.FullCropIsWholeImage | src/app.rs:458-482 | cropping to the whole image gives the same bytes as not cropping |
| App.ScreenshotBytes | src/app.rs:451-482 | without a panel rect the whole image is returned; with one, the clamped crop of it; always four bytes per pixel of the result |
| Datetime.FirstValidFrom | src/data/datetime.rs:108-111 | scanning from `k`, the first timestamp that is not a number below the threshold (not-a-number counts as valid), with every one before it below |
| Datetime.FirstValid | src/data/datetime.rs:108-111 | the first valid timestamp (not-a-number, or at least `error_range_max + 1`), every earlier one being an error; `n` when none is valid |
| Datetime.LastValidAtOrBefore | src/data/datetime.rs:121-142 | the nearest valid original timestamp at or before a position after the first valid one |
| Datetime.Fixed | src/data/datetime.rs:97-145 | the corrected sequence has the input's length and each entry is the corrected value of its position |
| Datetime.RunAnchor | src/data/datetime.rs:124-133 | inside a run of errors the anchor is the valid timestamp just before the run |
| Datetime.RunExpected | src/data/datetime.rs:129-133 | the k-th error of a run becomes the value before the run plus `k` increments, not-a-number when that value is |
| Datetime.FixedAtLeastThreshold | src/data/datetime.rs:121-142 | with a non-negative increment every corrected value from the first valid one on is itself valid |
| Datetime.LeadingExpected | src/data/datetime.rs:114-119 | a leading error `d` places before the first valid timestamp becomes that timestamp minus `d` increments (not-a-number when it is), counting from the threshold when none is valid |
| Datetime.StepBackMono | src/data/datetime.rs:117 | stepping back further gives a smaller value when the increment is non-negative |
| Datetime.LeadingIncrease | src/data/datetime.rs:114-119 | the corrected leading values do not decrease, and are all not-a-number or all numbers |
| Datetime.FixedValidFrom | src/data/datetime.rs:97-145 | after correction, everything from the first valid value on is valid |
| Datetime.FixedStableAt | src/data/datetime.rs:97-145 | correcting a corrected sequence again leaves each position as it is |
| Datetime.FixIdempotent | src/data/datetime.rs:97-145 | `fix_error_timestamps` is idempotent for a non-negative increment |
| Datetime.NaNFirstValidPoisonsLeading | src/data/datetime.rs:108-118 | when the first valid timestamp is not-a-number (`NaN < threshold` is false), every leading entry becomes not-a-number |
| Datetime.NaNAnchorPoisonsRun | src/data/datetime.rs:124-133 | a not-a-number entry just before a run of errors is the run's base, so the whole run becomes not-a-number |
| Datetime.NaNExample | src/data/datetime.rs:97-145 | with threshold 978307200 and increment 10, `[NaN, 5, 1.7e9]` is corrected to `[NaN, NaN, 1.7e9]` |
| Datetime.FindFirstValid | src/data/datetime.rs:107-111 | the scanning loop finds the first valid position |
| Datetime.StepBackBefore | src/data/datetime.rs:116-118 | the backward loop sets each leading position to the first valid value minus its distance in increments, leaving the rest |
| Datetime.FixLeading | src/data/datetime.rs:113-119 | the leading errors take their corrected values and the rest is untouched |
| Datetime.FillRun | src/data/datetime.rs:129-133 | a run of errors takes its corrected values and nothing outside the run changes |
| Datetime.FixRuns | src/data/datetime.rs:121-142 | the run loop leaves every position at its corrected value |
| Datetime.FixErrorTimestamps | src/data/datetime.rs:97-145 | `fix_error_timestamps` returns exactly the corrected sequence for threshold `error_range_max + 1` |
| Settings.SelectedIds | src/ui/settings_dialog.rs:259-267 | at most one id per check box |
| Settings.SelectedIdsByIndices | src/ui/settings_dialog.rs:259-267 | the selected ids are, one for one and in order, the ids of the series at the checked positions, ascending; boxes beyond the series are ignored |
| Settings.SelectedIdsMembers | src/ui/settings_dialog.rs:259-267 | the ids of the series whose box is checked, and only those |
| Settings.SelectedIdsExtraBoxes | src/ui/settings_dialog.rs:259-267 | check boxes past the last series add no id |
| Settings.AllSelectedIds | src/ui/settings_dialog.rs:259-267 | with every box checked the ids are those of the first series, in order |
| Settings.SelectedIdsPrefix | src/ui/settings_dialog.rs:259-267 | series beyond the checkboxes do not affect the selected ids |
| Settings.SelectedIdsFound | src/ui/settings_dialog.rs:355-364 | every selected id is found among the series |
| Settings.Resized | src/ui/settings_dialog.rs:198-201 | `resize(n, false)` keeps the first checks and clears the new ones |
| Settings.Swapped | src/ui/settings_dialog.rs:179 | `swap(a, b)` exchanges two places and leaves the others |
| Settings.SwapInvolution | src/ui/settings_dialog.rs:178-183 | swapping twice restores the order, and a swap is a permutation |
| Settings.SwapKeepsSelection | src/ui/settings_dialog.rs:178-183 | swapping series and their checks together keeps the set of selected ids |
| Settings.ConvertValue | src/ui/settings_dialog.rs:487 | `(v + bias) * factor` is a number exactly when `v`, the bias and the factor all are, and then equals that expression |
| Settings.ConvertValueInverse | src/ui/settings_dialog.rs:487 | with a finite non-zero factor and a finite bias, converting with bias `-bias*factor` and factor `1/factor` undoes a conversion |
| Settings.PrefixBeforeIsFirst | src/ui/settings_dialog.rs:490-492 | the kept part ends at the first occurrence of the separator |
| Settings.RelabelTwice | src/ui/settings_dialog.rs:488-493 | relabelling twice is relabelling once with the last unit |
| Settings.Converted | src/ui/settings_dialog.rs:486-495 | a converted series has every y converted, the new unit and label, a pending resample, and nothing else changed |
| Settings.ConvertedInverse | src/ui/settings_dialog.rs:486-495 | with a finite non-zero factor and a finite bias, converting with the inverse factor and bias restores the y values |
| Settings.ConvertSelected | src/ui/settings_dialog.rs:484-497 | exactly the selected series are converted, in place and in order |
| Settings.StatsReport | src/ui/settings_dialog.rs:290-305 | one report entry per selected series in series order, with its label, and statistics exactly when it has a finite value; the statistics describe its finite values |
| Settings.SettingsDialogState.constructor | src/ui/settings_dialog.rs:21-33 | nothing selected for each series, Add chosen, no error, empty unit name, factor "1.0", bias "0.0", no statistics cached |
| Settings.SettingsDialogState.ApplySwap | src/ui/settings_dialog.rs:178-183 | the series are swapped, and the checks too when both indices are in range |
| Settings.SettingsDialogState.SyncSelection | src/ui/settings_dialog.rs:198-201 | the checkboxes are resized to the number of series |
| Settings.SettingsDialogState.ApplyConversion | src/ui/settings_dialog.rs:476-499 | with parsed numbers (not-a-number included), a non-empty unit name and a factor other than zero (a not-a-number factor counts as non-zero), exactly the selected series are converted; otherwise nothing changes |
| Settings.SettingsDialogState.ShowStats | src/ui/settings_dialog.rs:278-307 | no selection clears the cache; a changed selection recomputes it and stores the report of the selected series; an unchanged one reuses it |
| Settings.SettingsDialogState.ApplyMath | src/ui/settings_dialog.rs:327-392 | only a click with exactly two selected series acts, on the series of the first and second selected id: a failed join shows its message and changes nothing else; a successful one appends the series "s1 op s2" of the joined points, in the shared unit or "units", with the counter's colour, advances the counter, gives the unit an axis, clears the error and adds an unchecked box |
| Settings.MathOperands | src/ui/settings_dialog.rs:355-364 | the operands are series of the graph with the first and the second selected id |
| DataSelection.NumericCount | src/ui/data_selection_dialog.rs:28-31 | the count of numeric cells is at most the number of cells |
| DataSelection.Sample | src/ui/data_selection_dialog.rs:27 | the first 100 cells, or all of them when there are fewer |
| DataSelection.UsableColumns | src/ui/data_selection_dialog.rs:18-39 | exactly the columns whose name contains "time" or whose sample is at least half numeric, ascending |
| DataSelection.CheckedColumns | src/ui/data_selection_dialog.rs:183-189 | the offered columns of the checked boxes, each one present; empty exactly when nothing is checked |
| DataSelection.CheckedColumnsAscending | src/ui/data_selection_dialog.rs:183-189 | the checked columns come in ascending order |
| DataSelection.OfferedColumns | src/ui/data_selection_dialog.rs:41-46 | the usable columns, or all columns in order when none is usable |
| DataSelection.DataSelectionState.constructor | src/ui/data_selection_dialog.rs:16-57 | the offered columns, nothing checked, the first offered column as x and no z |
| DataSelection.DataSelectionState.OkResult | src/ui/data_selection_dialog.rs:174-199 | a selection exactly when some y is checked, with the target graph and x, y and z mapped through the offered columns to real column indices |
| Units.InferUnit | src/data/unit_inference.rs:3-29 | the unit is one of the ten names |
| Units.InferUnitIsChain | src/data/unit_inference.rs:3-29 | the unit is the one the program's chain of keyword tests on the lower-cased name picks |
| Units.ChainIsTable | src/data/unit_inference.rs:5-28 | the rule table gives the same unit as the program's chain of keyword tests |
| Units.FallbackIffNoKeyword | src/data/unit_inference.rs:25-27 | the fallback is chosen exactly when no rule's keyword occurs |
| Units.UnitsIffNoRule | src/data/unit_inference.rs:3-29 | a name infers "units" exactly when no keyword occurs in its lower-cased form |
| Units.RulesAvoidFallback | src/data/unit_inference.rs:5-24 | no rule yields the fallback unit |
| Units.TempIncIsDegrees | src/data/unit_inference.rs:5-11 | "Temp Inc" is Degrees: the angle rule comes before the temperature rule |
| Units.BatteryCurrentIsVolts | src/data/unit_inference.rs:17-20 | "Battery Current" is V: "bat" is tested before "current" |

## Left out

- Drawing itself: wgpu devices, buffers, bind groups, pipelines, WGSL shaders and all egui widget, layout and text code. Draw calls are modelled as the data they are created from.
- Downsampling.BucketOf, Downsampling.LttbIndicesShape, Downsampling.LttbDownsample: bucket bounds are exact integer floors, while the program truncates a rounded double product that can be one lower; it can then keep a different point, and its last bucket can hold `n−2` (63 points, target 9). The last-bucket-is-empty and final-point-kept-twice statements hold only under exact arithmetic.
- Single-precision (`f32`) rounding on the GPU path and double-precision rounding everywhere: all arithmetic is on exact reals.
- Infinities: a double is a finite value or not-a-number; `is_finite` becomes `Fin?`.
- `log10`, `sqrt`, trigonometry and the view/projection matrices: the grid generator takes the decade `order` as a parameter, statistics keep the variance instead of the standard deviation, and camera `pan` takes the right and up vectors as parameters.
- `SeriesStats::report` and `format_tick_value` (src/render/plot_interaction.rs): number formatting to text is not modelled; the report is kept as its entries.
- Text-to-number parsing (`parse::<f64>`, `column_to_f64`, `column_to_timestamps`, `detect_date_format`, `parse_to_timestamp`): parsed values and the "reads as a number" test are parameters. The x column's resolution to numbers or timestamps is an input of `App.ProcessColumnSelection`.
- Lower-casing is ASCII only.
- File loading and parsing (src/data/loader.rs, src/data/parser.rs), project save/load, CSV export, file and clipboard dialogs, and the background loading thread. The mutex around the 2D draw list is a plain field.
- The process-wide id counters: the next series or graph id is a parameter.
- The kd-tree (src/processing/kd_tree.rs), the theme (src/state/theme.rs) and the 3D axis labels and legend.
- The series loop of the 3D panel that builds scatter and line entries from series data (only the bounds, the point normalisation and the cube grid are modelled).
- PlotView.ScreenToData, PlotView.PanWindow, PlotView.ZoomWindow, PlotView.PlotViewState.HandleInput: require a plot rect of non-zero width and height; the program would divide by zero and produce infinities or not-a-number, which the model does not represent.
- Panel.HandleCursorClick: requires a plot rect of non-zero width and height, for the same reason.
- PlotView.DataToScreen: requires a data window of non-zero width and height; with a zero-width window the program divides by zero and gets infinities or not-a-number. The model does not show that the view's mutators keep the window non-degenerate.
- Downsampling.LttbDownsample, Downsampling.DownsampleForView, MathOps.PerformMath, Panel.PlotSeries, Panel.BuildSeriesData, Settings.SettingsDialogState.ApplyMath: require each y sequence to be at least as long as its x sequence. Every series the program builds has equal lengths; the program's `zip` would silently truncate otherwise.
- Downsampling.DownsampleForView: requires the sorted case to have a non-empty window (`start <= end`), as the program's slice would panic otherwise; any view with `view_min <= view_max` qualifies.
- App.SyncFrame, App.ApplyPropagations, App.Propagate, App.Unsync, App.SyncApply: require unique graph ids, which the program guarantees through its global counter.
- PlotView.ComputeGridLines: requires the decade `order` to match the range (the `log10` the program computes).
