# libmf: a Dafny model of the matrix-factorisation core

libmf factorises a bipartite click graph. Its sources are ads, its targets
publishers, and every edge carries view and click counts. It learns a latent
vector of `latent_dims_` weights for every vertex. Training alternates between
the two sides with the Ipopt solver. This project models the exact, checkable
part of that core and proves properties of the model:

- **Loading** (`Problem::SetMatrix`, modules `Strings`, `Adjacency` and
  `Problems`). Each line `ad#ps \t click \t view` is split and checked. Every id
  is interned on its side, which means it gets a stable index equal to its
  position in the side's vertex vector. The pair's latest counts are stored in
  the adjacency, and accepted lines are counted. The whole load is specified
  as a fold, `Replay`, of the one-line step `Step` over the accepted lines, in
  line order and with the draws of `rand()` consumed in call order. So the
  result pins down every new id's index (its first-sight rank on its side) and
  every new vertex's weights. The relation `RecordedAll` and the graph
  invariant `Loaded` are proved about that fold.
- **Flat parameter layout** (`GetDims` and the `get_nlp_info`,
  `get_bounds_info`, `get_starting_point` and `finalize_solution` callbacks,
  modules `Layout` and `Solutions`). All weights form one vector: sources
  first, then targets, `D` entries per vertex. Packing and unpacking are
  proved inverse, and the slot-to-position map is proved a bijection onto
  `[0, GetDims())`.
- **Objective and gradient** (`eval_f` and `eval_grad_f`, module `Solutions`).
  `EvalF` computes exactly the reference `Objective` and stores it into
  `loss_`. `EvalGradF` zeroes the buffer, writes only the active side's block,
  and reads only inside `x`.
- **Outer loop** (`Problem::Optimize`, module `Optimizer`). It makes at most
  `iter_num` rounds. The active side switches once per completed round. The
  backup and the step check use the starting-point layout. The integer
  threshold `1 / (latent_dims_ * graph_size_)` is 0 whenever that product
  exceeds 1, and the graph invariant is kept.
- **Helpers** (modules `Vertices`, `Util` and `CMath`): the `Vertex`
  constructor and `operator==`, `validate`, `sigmod` and `product`.

The model is imperative where the source is. `Problem` and `Solution` are
classes whose methods update fields. The Ipopt callbacks write into arrays.
Loops are `for`/`while` loops with invariants. Each loop is proved against a
value-level definition (`Pack`, `Unflatten`, `MaxDiff`, `GraphLoss`,
`Recorded`, `Replay`), and the properties are proved about those definitions.

The model injects what the source takes from its environment:
- Doubles are `real`.
- `exp`, `log` and `sqrt` are uninterpreted function fields of `CMath.Libm`.
  So are three divisions: by `graph_size_` in `eval_f` and `eval_grad_f`, by
  `sqrt(D)` in the `Vertex` constructor, and `1 / sigmod(...)` in `eval_f`
  and `eval_grad_f`. Sums, products and the rescaling by `_MAX_` in the
  `Vertex` constructor are exact real arithmetic.
- The successive results of `rand()` are a parameter `draws: nat -> nat`.
- `StringToInt` is a parameter `toInt`, and `FLAGS_filter` a parameter
  `filter`.
- The Ipopt application is a datatype, `Optimizer.Ipopt`. It gives the
  `Initialize` status of each round and the run of each `OptimizeTNLP` call:
  the points evaluated, the final point and the status.

## Model

| member | source | states |
|---|---|---|
| CMath.Abs | src/problem.cc:135 | `fabs`: the result is never negative and is `x` or `-x` |
| Util.Clamp | include/util.h:19-20 | the two conditional assignments put `x` into `[lo, hi]`: unchanged inside, `lo` below, `hi` above |
| Util.ValidateRange | include/util.h:18-23 | `validate` always returns a value in `[-1e19, 1e19]` that is 0 or has magnitude at least 1e-8 |
| Util.ValidateFlush | include/util.h:21 | `validate` returns 0 exactly when the clamped value has magnitude below 1e-8, and the clamped value otherwise |
| Util.ValidateIdempotent | include/util.h:18-23 | `validate(validate(x)) == validate(x)` |
| Util.SigmodSaturates | include/util.h:25-29 | `sigmod` depends only on its argument clamped to `[-200, 200]`, so it is constant for `x >= 200` and for `x <= -200` |
| Util.Product | include/util.h:9-16 | `product` assigns, not accumulates: it returns the product of the last aligned pair `a[k-1] * b[k-1]` for `k = min(|a|, |b|)`, or 0 when either vector is empty |
| Vertices.NumeratorRange | include/vertex.h:18 | for a non-negative draw, `(rand() % 200000) / 100000 - 1` lies in `[-1, 1)` |
| Vertices.InitialWeights | include/vertex.h:14-20 | a new vertex has exactly `D` weights, and weight `i` is the coordinate of the `i`-th draw |
| Vertices.NewVertex | include/vertex.h:14-20 | the constructor keeps the id, sizes the weights to `D` and fills entry `i` from the `i`-th draw |
| Vertices.SameVertexIgnoresWeights | include/vertex.h:21-23 | two vertices with the same id are equal whatever their weights |
| Vertices.SameVertexEquivalence | include/vertex.h:21-23 | `operator==` is reflexive, symmetric and transitive, and holds exactly when the ids are equal |
| Strings.Split | src/problem.cc:33 | splitting gives at least one field, and no field contains the separator |
| Strings.SplitFieldCount | src/problem.cc:33-34 | a string has one field more than it has separators |
| Strings.JoinSplit | src/problem.cc:33 | joining the fields with the separator gives back the line |
| Strings.SplitJoin | src/problem.cc:47 | splitting separator-free fields joined by the separator gives back the fields |
| Strings.SplitKeepsAbsent | src/problem.cc:46-53 | a character absent from the line is absent from every field, so the ids taken from the name contain no tab |
| Problems.ParseLine | src/problem.cc:32-53 | a line is rejected for its field count exactly when it has not 2 tabs; an accepted line passes the click filter, and its ids contain neither a tab nor `#` |
| Problems.ParseLineVerdicts | src/problem.cc:34-51 | for a line with 2 tabs: it is filtered out exactly when the filter is on and the click field reads 0; it is rejected for its name exactly when it is not filtered and the name has not exactly one `#` |
| Problems.ParseLineAccepted | src/problem.cc:38-53 | an accepted line is exactly `ad#ps \t click \t view` for the ids it yields, with the click count read from field 2 and the view count from field 3 |
| Problems.ParseFormatted | src/problem.cc:32-53 | a well-formed line is accepted with its ids and counts unless the filter drops it for a zero click count |
| Problems.IdsOfObservations | src/problem.cc:52-53 | every observation's source and target ids belong to the id sets of the observations |
| Problems.WritesOf | src/problem.cc:66-74 | the observations become one adjacency write each, addressed through the id maps |
| Problems.WritesOfStable | src/problem.cc:55-67 | maps that only gain entries give the same writes for observations whose ids they already hold |
| Problems.InternedIndices | src/problem.cc:55-64 | an interned side's map has exactly the values `0 .. size-1` and exactly the vertices' ids as keys, and ids are unique within a side |
| Problems.StoreKeepsRange | src/problem.cc:72-74 | storing a pair whose target index is in range keeps every adjacency key below the target count |
| Problems.Record | src/problem.cc:55-76 | the accepted branch of the loop body records the observation as `Recorded` defines: new ids get the side's size as index and a freshly drawn vertex, source first; the pair is stored; the line is counted; the outcome is `Step`'s |
| Problems.StepRecorded | src/problem.cc:55-76 | the one-line step `Step` satisfies `Recorded` |
| Problems.RecordedUnique | src/problem.cc:55-76 | `Recorded` fixes the outcome: the resulting data and the next unused draw are determined by the line and the data before it |
| Problems.RecordedDims | include/problem.h:27-29 | recording a line grows `GetDims` by `D` for each of its ids seen for the first time, and by nothing otherwise |
| Problems.RecordedKeepsLoaded | src/problem.cc:55-76 | recording an observation keeps the graph invariant: both sides interned, `D` weights per vertex, one adjacency row per source, every key a target index |
| Problems.InternedAdd | src/problem.cc:55-64 | interning an id, seen or not, keeps the side interned and sized, and the id's index is a position of the side |
| Problems.StoredLoaded | src/problem.cc:66-76 | interning both ids and storing the pair into the source's row keeps the graph invariant |
| Problems.TakeLine | src/problem.cc:31-77 | a skipped line leaves the data and the draws untouched; an accepted one gives exactly `Step`'s outcome |
| Problems.RecordedAllSnoc | src/problem.cc:31-77 | recording one more observation extends the whole-load relation `RecordedAll` by that observation |
| Problems.InternedAllSnoc | src/problem.cc:55-64 | the counting and interning half of `RecordedAllSnoc`: one more line counted, its ids added, existing indices kept |
| Problems.StoredAllSnoc | src/problem.cc:66-74 | the adjacency half of `RecordedAllSnoc`: one more write applied on top of the earlier ones |
| Problems.RecordedGrows | src/problem.cc:55-64 | recording adds exactly the observation's ids to the maps, keeps every existing index and only appends vertices |
| Problems.RecordedNothing | src/problem.cc:30-31 | with no line, the data is as it was |
| Problems.AcceptedLinesStep | src/problem.cc:31-77 | one more line adds its observation to the accepted lines exactly when it is accepted |
| Problems.ReplaySnoc | src/problem.cc:31-77 | replaying one more observation is one more `Step` from the replayed data and draw count |
| Problems.ReplayLoaded | src/problem.cc:31-77 | from loaded data, a replay keeps the graph invariant, and its result is the start data with the observations recorded as `RecordedAll` states |
| Problems.RecordedAllLoaded | src/problem.cc:31-77 | one more recorded observation keeps the graph invariant and extends `RecordedAll` |
| Problems.ReplayFirstSight | src/problem.cc:55-64 | loading `A#B` then `C#B` on nothing gives `A` index 0 and `C` index 1, interns `B` once, and draws the weights of `A`, `B` and `C` in that order |
| Problems.FirstSightPrefix | src/problem.cc:55-76 | after the line `A#B` on nothing, both ids have index 0 and `2 * D` draws are used |
| Problems.FirstSightLine1 | src/problem.cc:55-76 | the step for `A#B` on nothing interns both ids and stores the pair `(0, 0)` |
| Problems.FirstSightLine2 | src/problem.cc:55-76 | the step for `C#B` after `A#B` gives `C` index 1, reuses `B`, and draws `D` more weights |
| Problems.LoadLines | src/problem.cc:31-77 | the loop over all lines ends in exactly `LoadedData`, the replay of the accepted lines from the first draw, and so keeps the graph invariant and records the lines as `RecordedAll` states |
| Problems.LoadStep | src/problem.cc:31-77 | the body for line `i` extends the replay from the first `i` lines to the first `i + 1` |
| Problems.StoreRow | src/problem.cc:68-74 | growing to row `a` and setting `graph_[a][p]` is `Store` |
| Problems.GrowRows | src/problem.cc:68-71 | the `push_back` loop pads the adjacency with empty maps to at least `ad_id + 1` rows, keeping the existing rows |
| Problems.Intern | src/problem.cc:55-64 | an unseen id gets the side's size as index and a new vertex that consumes `D` draws; a known id changes nothing |
| Problems.LoadedRestart | src/problem.cc:30 | resetting `graph_size_` to 0 keeps the graph invariant |
| Problems.LoadedSizes | include/problem.h:45-46 | loaded data holds as many vertices as ids on each side |
| Problems.ReweightLoaded | src/solution.cc:199-208 | replacing the weights with `D`-sized vectors while keeping every id keeps the graph invariant |
| Problems.InternedReweight | src/solution.cc:199-208 | keeping the ids keeps a side interned |
| Problems.Problem.GetDims | include/problem.h:27-29 | `GetDims` is the source block's `|ad| * D` entries plus the target block's `|ps| * D` |
| Problems.Problem.Packed | include/problem.h:27-29 | the flat vector of the current weights has `GetDims()` entries |
| Problems.Problem.constructor | src/problem.cc:18-23 | a new problem is empty and valid, with `opt_flag_` false, `D = 40` and both regularisation weights 0.5 |
| Problems.Problem.SetMatrix | src/problem.cc:28-79 | `graph_size_` restarts at 0; the fields become exactly `LoadedData`, the replay of the accepted lines on top of the current data; so they also satisfy `RecordedAll`; the invariant is kept; there are as many vertices as ids on each side; the result is `true` |
| Problems.Problem.Commit | src/problem.cc:28-79 | the fields take the loaded data |
| Adjacency.Grown | src/problem.cc:68-71 | padding keeps every existing row and adds empty ones up to `n` rows |
| Adjacency.Store | src/problem.cc:68-74 | row `a` exists afterwards and holds the old row with `p` set to the counts; every other row is as before |
| Adjacency.StoreAllLength | src/problem.cc:68-74 | the adjacency never shrinks, and every written source row exists |
| Adjacency.StoreAllLastWins | src/problem.cc:72-74 | the pair holds the counts of the last line that addressed it: a duplicate pair overwrites the earlier one |
| Adjacency.StoreAllUntouched | src/problem.cc:72-74 | a pair no line addresses keeps exactly what it held |
| Adjacency.EdgeCountStore | src/problem.cc:72-76 | one store adds at most one pair |
| Adjacency.EdgeCountStoreAll | src/problem.cc:72-76 | a load adds at most one pair per line, so `graph_size_` bounds the number of stored pairs |
| Layout.FlattenLength | src/solution.cc:47-58 | flattening `D`-weight vertices gives `|vs| * D` entries |
| Layout.FlattenAt | src/solution.cc:49 | weight `j` of vertex `i` sits at `i*D + j` of the flattened weights |
| Layout.PackLength | include/problem.h:27-29 | the packed vector has `D * (|ad| + |ps|)` entries, which is `GetDims()` |
| Layout.SlotPositionInverse | src/solution.cc:47-58 | every valid (side, vertex, coordinate) slot is packed below `GetDims()` and is recovered from its position |
| Layout.PositionSlotInverse | src/solution.cc:47-58 | every position below `GetDims()` is the position of exactly one valid slot, so the layout covers `[0, GetDims())` once |
| Layout.PackAt | src/solution.cc:47-58 | the packed vector holds each slot's weight at its position: `i*D + j` for a source, `|ad|*D + i*D + j` for a target |
| Layout.PackVertex | src/solution.cc:53-57 | the `D` weights of one vertex lie side by side in the packed vector from its first slot's position |
| Layout.UnflattenAt | src/solution.cc:199-208 | after the write-back, vertex `i` keeps its id and weight `j` is `x[i*D + j]` |
| Layout.UnflattenLength | src/solution.cc:199-208 | the write-back keeps the number of vertices and leaves `D` weights on each |
| Layout.UnflattenVertex | src/solution.cc:199-203 | vertex `i` after the write-back is its id with the chunk `x[i*D .. i*D + D)` |
| Layout.UnflattenChunks | src/solution.cc:199-203 | a vertex sequence whose vertex `i` has the old id and chunk `i` of `x` is the write-back's result |
| Layout.UnflattenFlatten | src/solution.cc:199-203 | writing back the weights just flattened changes nothing |
| Layout.FlattenUnflatten | src/solution.cc:47-51 | flattening after a write-back gives back the vector written |
| Layout.UnpackPack | src/solution.cc:190-209 | `finalize_solution` after `get_starting_point` leaves every vertex as it was |
| Layout.PackUnpack | src/solution.cc:39-61 | `get_starting_point` after `finalize_solution(x)` reproduces `x` |
| Layout.UnflattenIds | src/solution.cc:199-208 | the write-back keeps every vertex's id and leaves `D` weights on each |
| Layout.EdgeBlocks | src/solution.cc:78-83 | for an edge with `i < |ad|` and `k < |ps|`, both `D`-entry blocks of the dot product lie inside the flat vector |
| Solutions.SumSquaresNonNegative | src/solution.cc:98-108 | a squared norm is never negative |
| Solutions.SumSquaresSplit | src/solution.cc:98-108 | the squared norm of a range is the sum over its two parts |
| Solutions.RegularisationNonNegative | src/solution.cc:109 | with non-negative regularisation weights the regularisation term is never negative |
| Solutions.Dot | src/solution.cc:81-84 | the inner-product loop computes the reference `Inner` of the two blocks |
| Solutions.SquaredNorm | src/solution.cc:98-108 | a regularisation loop computes the squared norm of its block |
| Solutions.EdgeLossSum | src/solution.cc:71-94 | the edge loop visits rows in order and keys in ascending order, and sums exactly `GraphLoss` |
| Solutions.RowLossSum | src/solution.cc:72-93 | one row's keys, smallest first, sum to `RowLoss` |
| Solutions.EdgeLossAt | src/solution.cc:75-92 | one edge's computed term is `EdgeLoss`, read inside `x` |
| Solutions.Regularise | src/solution.cc:131-143 | `grad[t] += x[t] * coef` on exactly the block's positions, and nothing else changes |
| Solutions.Accumulate | src/solution.cc:162-170 | one edge adds `scale * x[src + j] / graph_size_` to `grad[dst + j]` for `j < D`, and nothing else changes |
| Solutions.BlockVertices | src/solution.cc:153-154 | every position of vertex `i`'s block belongs to vertex `i` |
| Solutions.ResetGradient | src/solution.cc:126-128 | the first `n` entries become 0 and the rest are untouched |
| Solutions.AddEdges | src/solution.cc:146-172 | the edge loop changes only the touched positions: a source with an edge when `opt_flag_` is set, a target with an edge otherwise |
| Solutions.AddEdge | src/solution.cc:147-170 | one edge writes only the active side's block of its own vertex, reading inside `x` |
| Solutions.PackSide | src/solution.cc:47-58 | one side's loop writes the flattened weights at `offset + t`, and nothing outside its block |
| Solutions.Solution.constructor | src/solution.cc:11 | a solution works on the problem it is handed |
| Solutions.Solution.GetNlpInfo | src/solution.cc:16-24 | `n == GetDims()`, no constraints, no Jacobian or Hessian entries, 0-based indices, result `true` |
| Solutions.Solution.GetBoundsInfo | src/solution.cc:27-36 | every one of the `n` variables is bounded by `[-2, 2]`, and the entries past `n` are untouched |
| Solutions.Solution.GetStartingPoint | src/solution.cc:39-61 | the first `GetDims()` entries of `x` become the packed weights, sources first, and the rest are untouched |
| Solutions.Solution.EvalF | src/solution.cc:64-115 | the returned value is the reference `Objective` at `x`, it is also stored into `loss_`, and the result is `true` |
| Solutions.Solution.EvalGradF | src/solution.cc:118-175 | the inactive side's block is exactly 0; an active vertex without edges gets exactly its regularisation term; entries past `n` are untouched; the result is `true` |
| Solutions.Solution.FinalizeSolution | src/solution.cc:190-209 | the sources take the first `|ad|*D` entries and the targets the next `|ps|*D`; ids and sizes are kept; when `|x| == GetDims()` packing gives `x` back |
| Solutions.Unpack | src/solution.cc:197-208 | the write-back on values: the sources from the first block and the targets from the second, ids kept, and packing the result gives `x` back |
| Solutions.Reweighted | src/solution.cc:199-208 | one side's write-back loop yields exactly `Unflatten` of its block of `x` |
| Optimizer.Threshold | src/problem.cc:152 | `1 / (latent_dims_ * graph_size_)` in C integers is undefined for a zero product, `1` or `-1` for a unit product, and 0 for every other product |
| Optimizer.StepTestNeedsUnitProduct | src/problem.cc:152-156 | a step, which is never negative, is below the threshold only when `latent_dims_ * graph_size_ == 1` |
| Optimizer.MaxDiffBounds | src/problem.cc:131-144 | the running maximum is never negative and bounds every step seen |
| Optimizer.MaxDiffAttained | src/problem.cc:131-144 | the running maximum is 0 or one of the steps |
| Optimizer.Backup | src/problem.cc:90-100 | `last_vec` receives the packed weights, in the `get_starting_point` layout |
| Optimizer.MaxStep | src/problem.cc:131-144 | the step check returns the largest `|last_vec[t] - weight at t|` over the whole flat vector |
| Optimizer.MaxStepAds | src/problem.cc:133-138 | the first loop gives the running maximum over the source block |
| Optimizer.MaxStepPss | src/problem.cc:139-144 | the second loop continues the running maximum over the target block |
| Optimizer.MaxStepVertex | src/problem.cc:134-137 | the inner loop extends the running maximum over one vertex's `D` weights |
| Optimizer.OptimizeTnlp | src/problem.cc:115-117 | one solver run through the callbacks changes only the weights and `loss_`, keeps every id and `D` weights per vertex, and keeps the adjacency in range |
| Optimizer.Round | src/problem.cc:89-144 | one round leaves `last_vec` holding the packed weights from before the round; when `Initialize` fails the weights, `opt_flag_` and `loss_` are unchanged; otherwise it switches `opt_flag_` once and returns the largest step between that backup and the new weights |
| Optimizer.Rounds | src/problem.cc:87-166 | at most `iter_num` rounds; `opt_flag_` ends switched once per completed round; each way out has its cause: the iteration limit, `Initialize`, the step test (only for a unit product) or a zero divisor |
| Optimizer.Optimize | src/problem.cc:81-169 | `Rounds`, and in addition the graph invariant is kept |

## Left out

- Floating point: doubles are reals, with no rounding, overflow, infinity or NaN. `exp`, `log`, `sqrt` and the divisions listed above are uninterpreted, so no numeric property of the loss or the gradient is proved.
- Vertices.Numerator: the rescaling `double(k) / _MAX_ - 1` is exact real arithmetic, so the model does not capture the rounding of the `double` division and subtraction. `NumeratorRange` is stated for the exact value.
- 32-bit and `size_t` arithmetic is unbounded. The model does not capture an overflow of `latent_dims_ * (sizes)` in `GetDims`, of `latent_dims_ * graph_size_` in the threshold, of `graph_size_`, or of the `int` index arithmetic `i * D + j`.
- Solutions.Solution.EvalGradF: the values written into the touched positions are not stated as a closed-form gradient. The contract states which positions are written, what untouched positions hold, and that every read stays inside `x`.
- `eval_g` and `eval_jac_g` (src/solution.cc:179-188): the problem has no constraints, and both return `true` without touching anything.
- The Ipopt internals: the application factory, the options file and the options set in src/problem.cc:105-109. `Optimizer.Ipopt` gives only the `Initialize` status and the run.
- Optimizer.OptimizeTnlp: it hands the final point to `finalize_solution` only when that point has `GetDims()` entries, because Ipopt's guarantee about the size is not part of this model.
- Optimizer.Rounds: the `OptimizeTNLP` status is only read to pick a log message, so the model ignores it.
- `Optimize` reports a failed `Initialize` by returning the status cast to `bool`. That is always `true`, since the status is non-zero, and the model keeps this.
- Optimizer.Rounds: the division by zero at src/problem.cc:152 is undefined behaviour in C++. The model stops with `ZeroDivisor` and `ok == false` instead.
- Logging (`VLOG`, `cerr`), `PrintInfo`, `PrintResult` and src/main.cc are console and file I/O.
- `SplitString` and `StringToInt` come from a base library that is not part of this model. `Strings.Split` assumes a split at every separator that keeps empty fields. `StringToInt` is the parameter `toInt`.
- `getline` on a stream: `SetMatrix` takes the input as a sequence of lines.
- `rand()` is the parameter `draws`, read as non-negative integers in call order.
- Default arguments are not modelled: `D = 100` of the `Vertex` constructor (include/vertex.h:14), which `SetMatrix` always overrides with `latent_dims_`, and `iter_num = 100` of `Optimize` (include/problem.h:22), since `Optimizer.Optimize` always takes `iterNum` as an argument.
- The fields `graph_size_` and `loss_` are indeterminate after the C++ constructor. The model starts both at 0.
- In-place updates of `std::vector` and `std::map` are modelled as rebuilt `seq` and `map` values assigned to the fields. The model does not capture aliasing of `problem_` beyond the one `Problem` object the `Solution` holds.
- The multiplier arguments `z_L`, `z_U`, `lambda`, `g_l`, `g_u`, `ip_data` and `ip_cq` of the callbacks are not modelled. The callbacks' `assert`s become preconditions.
