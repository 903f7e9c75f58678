# Capacitated vehicle routing service: request normalisation and solution extraction

The service takes a JSON request (vehicles with an id, a start location index
and a capacity list; jobs with an id, a location index and a delivery list; an
n×n duration matrix). It turns the request into OR-Tools routing data, lets the
OR-Tools search find routes, and reads the routes back into a response. The
response holds `total_delivery_duration` and, per vehicle id, the ids of the
jobs it serves and its `delivery_duration`.

This project models the code on both sides of the search:

- `cvrp.dfy` (module `Cvrp`, app/solver/cvrp.py):
  - the `vehicles` and `jobs` dicts keyed by id;
  - `create_duration_matrix`, which adds a zero row and column so node `n` is a cost-free virtual sink;
  - `create_vehicle_data`;
  - `get_demands`, an array overwritten in two loops;
  - the reverse maps `vehicle_ids` and `job_ids`;
  - `solve_vehicle_routing_problem`, which composes all of these with `solve`.
- `or_tools.dfy` (module `OrTools`, app/solver/or_tools.py):
  - the two solver callbacks;
  - the filter that picks which locations get a time window;
  - `prepare_solution`, a `while` walk per vehicle that accumulates job ids and arc costs;
  - the `if solution:` branch of `solve`.
- `pydict.dfy` (module `PyDict`): Python dicts as insertion-ordered sequences of pairs. A dict comprehension keeps the position of a key's first occurrence and the value of its last.
- `python.dfy` (module `Python`):
  - list indexing, where `-n <= i < n` is valid and negative indices count from the end;
  - `str()` of an id;
  - the two exceptions the core can raise, `IndexError` and `KeyError`, modelled as a `Result`.

The OR-Tools objects are modelled in node space:

| OR-Tools call | Model |
|---|---|
| `routing.Start(k)` | `starts[k]` |
| `routing.IsEnd(i)` | "the node is the sink `n`" |
| `solution.Value(routing.NextVar(i))` | `next[k][i]`, one successor table per vehicle |
| `GetArcCostForVehicle` | `duration_matrix[from][to]`, the arc cost `duration_callback` installs at line 68 |

The solver's output is an input of `PrepareSolution`. It requires each vehicle's successor chain to reach the sink. A ghost witness `paths[k]` names that walk, and `PathUnique` shows the witness is determined by the table.

OR-Tools never makes a vehicle's start index an end index, even when the start node is the sink. So the `while` loop at or_tools.py:36 runs at least once for every vehicle, and line 43 always sets `delivery_duration`. The model keeps this: a walk takes at least one arc, and `WalkRoute` enters its loop once before it tests for the sink. For a vehicle that starts at the sink, the start is looked up in `job_ids` like any other node, unless the loop index is the sink.

Two behaviours of the code are kept exactly as written:

- **Start-node skip.** `prepare_solution` skips a node when it equals the vehicle's *loop index* `k` (or_tools.py:38), not when it equals the vehicle's start.
  - When the two coincide, the turn lists exactly the interior of the walk (`AlignedStartListsInterior`).
  - When they differ, the start node is looked up in `job_ids`. If no job is there, the lookup raises KeyError (`StartNotSkippedFails`), also for a vehicle that starts at the sink.
- **Vehicle id lookup.** `vehicle_ids` is keyed by start index (cvrp.py:46) but looked up by loop index (or_tools.py:32).
  - It finds vehicle `k`'s id when vehicle `k` is the last vehicle starting at node `k` (`LastVehicleAtStart`), in particular when every vehicle `j` starts at node `j` (`AlignedLoopIndex`). When two vehicles start at node `k`, the later one's id is found (cvrp.py:46 keeps the last).
  - When some other vehicle is the last one starting at node `k`, the id lookup itself does not raise, and a successful turn files vehicle `k`'s route under that vehicle's id (`RouteFiledUnderStartingVehicle`). Vehicle `k`'s own start is then usually not `k`, so it is not skipped at or_tools.py:38: unless a job sits at that start, the lookup at line 39 makes the whole request raise KeyError (`BorrowedIdStartFails`).
  - When no vehicle starts at node `k`, the whole request raises KeyError (`UnknownLoopIndexFails`, `MisalignedLoopIndexFails`).

Some consequences of the code that a reader might not expect:

- **Indices.** The demand vector has `len(matrix) + 1` slots, so `get_demands` accepts every start or location index from `-(len(matrix) + 1)` to `len(matrix)`. A negative index counts from the end, and index `len(matrix)` or `-1` writes the sink's slot. Any other index raises IndexError.
- **Duplicate ids.** The code does not reject them. It keeps the last vehicle or job with a given id, at the position where the id first occurred.
- **Skipped nodes.** The code skips nodes equal to the loop index, not the start node.
- **Job coverage.** The code does not check that every job appears in exactly one route. Whether that holds depends on the search, which is not modelled.

## Model

| member | source | states |
|---|---|---|
| Python.Slot | app/solver/cvrp.py:27-29 | Python list indexing: a position exists exactly when `-n <= i < n`; it lies below `n` and is `i`, or `i + n` for a negative `i`. |
| Python.StrNumInjective | app/solver/or_tools.py:32 | `str()` of two integer ids is the same string exactly when the ids are equal. |
| Python.NumberAndTextCollide | app/solver/or_tools.py:32 | `str()` gives the id `1` and the id `"1"` the same route key. |
| PyDict.IndexIn | app/solver/or_tools.py:32-33 | The position of a dict key: None exactly when the key is absent; otherwise the first position holding it. |
| PyDict.GetSome | app/solver/or_tools.py:32 | `d[k]` succeeds exactly when `k` is a key, and the value found is paired with `k` in the dict. |
| PyDict.GetAt | app/solver/or_tools.py:32 | In a dict with unique keys, looking up the key at position `i` gives the value at `i`. |
| PyDict.PutKeys | app/solver/or_tools.py:33 | Assigning `d[k]` keeps the key order, and appends `k` only when it is new. |
| PyDict.PutGet | app/solver/or_tools.py:33 | After `d[k] = v`, `d[k]` is `v` and every other key reads as before. |
| PyDict.PutUnique | app/solver/or_tools.py:33 | Assignment preserves unique keys. |
| PyDict.PutPut | app/solver/or_tools.py:33 | A second assignment to the same key replaces the first. |
| PyDict.FromPairsUnique | app/solver/cvrp.py:34-35 | A dict comprehension has unique keys. |
| PyDict.LastIndex | app/solver/cvrp.py:46-47 | The last pair with a given key: None exactly when no pair has it; otherwise no later pair has it. |
| PyDict.FromPairsGet | app/solver/cvrp.py:46-47 | A comprehension maps each key to the value of the last pair with that key, and lacks keys no pair has. |
| PyDict.LastPairWins | app/solver/cvrp.py:46-47 | A pair that no later pair overrides is what the comprehension maps its key to. |
| PyDict.FromPairsKeys | app/solver/cvrp.py:34-35 | The comprehension's keys are exactly the keys of its pairs. |
| PyDict.ItemIsLastPair | app/solver/cvrp.py:34-35 | Every item of the comprehension is the last pair with its key. |
| PyDict.FirstInsertionOrder | app/solver/cvrp.py:34-35 | The comprehension's items come in the order of their keys' first occurrences. |
| PyDict.FromPairsOfUniqueKeys | app/solver/cvrp.py:34-35 | Pairs with all-different keys make a dict of exactly those pairs, in order. |
| Cvrp.CreateDurationMatrix | app/solver/cvrp.py:7-13 | Returns the caller's matrix with 0 appended to every row and then a zero row one longer than the row count; the loop works on a copy. |
| Cvrp.AugmentedMatrix | app/solver/cvrp.py:7-13 | For a square n×n matrix, the result is square (n+1)×(n+1), keeps every `[i][j]` with `i, j < n`, and has 0 in the whole last row and last column. |
| Cvrp.SinkArcsAreFree | app/solver/or_tools.py:58-63 | `duration_callback` on the augmented matrix gives the request's duration between real locations and 0 on every arc into or out of the sink. |
| Cvrp.CreateVehicleData | app/solver/cvrp.py:16-21 | Fails with IndexError exactly when some vehicle's capacity list is empty. Otherwise `num_vehicles` is the vehicle count, `starts[k]` is vehicle k's start index, `ends[k]` is `len(duration_matrix) - 1` and `vehicle_capacities[k]` is its `capacity[0]`. |
| Cvrp.GetDemands | app/solver/cvrp.py:24-30 | IndexError when a start or location index is out of range or a job has no delivery. Otherwise a length-n vector whose every position holds the delivery of the last job written there, or 0 where no job is. |
| Cvrp.DemandsOk | app/solver/cvrp.py:24-30 | With every index in range and every delivery present, the demand vector succeeds with each position's last-written delivery. |
| Cvrp.LastJobWins | app/solver/cvrp.py:28-29 | A job's location holds that job's `delivery[0]` unless a later job writes there. |
| Cvrp.NoJobNoDemand | app/solver/cvrp.py:25-29 | A position no job addresses has demand 0, including a vehicle's start. |
| Cvrp.SinkDemandZero | app/solver/cvrp.py:25-29 | When no job's location is `n-1` or `-1`, the sink slot's demand is 0. |
| Cvrp.JobOverridesVehicleStart | app/solver/cvrp.py:26-29 | The job loop runs after the vehicle loop, so a job at a vehicle's start sets that position's demand to the job's delivery. |
| Cvrp.DuplicateVehicleIdsCollapse | app/solver/cvrp.py:34 | Each vehicle of `vehicles.values()` is the last vehicle of the request with its id. |
| Cvrp.DuplicateJobIdsCollapse | app/solver/cvrp.py:35 | Each job of `jobs.values()` is the last job of the request with its id. |
| Cvrp.DistinctVehicleIdsKept | app/solver/cvrp.py:34 | With all vehicle ids different, `vehicles.values()` is the request's vehicle list, unchanged and in order. |
| Cvrp.DistinctJobIdsKept | app/solver/cvrp.py:35 | With all job ids different, `jobs.values()` is the request's job list, unchanged and in order. |
| Cvrp.VehicleListOrder | app/solver/cvrp.py:34 | `vehicles.values()` lists vehicles in the order their ids first occur in the request. |
| Cvrp.LastVehicleAtStart | app/solver/cvrp.py:46 | `vehicle_ids[s]` is the id of the last vehicle starting at `s`. |
| Cvrp.NoVehicleAtIndex | app/solver/cvrp.py:46 | `vehicle_ids` has no key `s` when no vehicle starts at `s`. |
| Cvrp.LastJobAtLocation | app/solver/cvrp.py:47 | `job_ids[l]` is the id of the last job at location `l`. |
| Cvrp.NoJobAtLocation | app/solver/cvrp.py:47 | `job_ids` has no key `l` when no job is at `l`. |
| Cvrp.AlignedLoopIndex | app/solver/cvrp.py:46 | When every vehicle starts at the node equal to its position, looking up `vehicle_ids` by loop index `k` finds vehicle k's id. |
| Cvrp.RouteFiledUnderStartingVehicle | app/solver/or_tools.py:32-33 | Vehicle k's route is filed under `str` of the id of the last vehicle starting at node k, whichever vehicle that is. |
| Cvrp.NormalizedShape | app/solver/cvrp.py:37-47 | The routing data holds the augmented matrix, one vehicle per distinct id, one demand per node (n+1), and every end at the sink `n`. |
| Cvrp.DemandCallbackReadsJobs | app/solver/or_tools.py:101-105 | `demand_callback(i)` returns the delivery of the last job addressing node `i`, or 0. |
| Cvrp.BorrowedIdStartFails | app/solver/or_tools.py:31-39 | When another vehicle is the last to start at node k and vehicle k starts elsewhere with no job there, `vehicle_ids[k]` is that other vehicle's id and the routed request raises KeyError. |
| Cvrp.MisalignedLoopIndexFails | app/solver/or_tools.py:31-32 | When no vehicle starts at some loop index, the routed request raises KeyError. |
| Cvrp.SolveVehicleRoutingProblem | app/solver/cvrp.py:33-49 | IndexError when building the data fails; None when the solver finds no solution; otherwise exactly the response `prepare_solution` extracts from the routing data, or its KeyError. |
| OrTools.Skip | app/solver/or_tools.py:38 | The nodes kept are exactly the nodes that differ from the loop index. |
| OrTools.JobsOfListsSkippedNodes | app/solver/or_tools.py:36-39 | The job list succeeds exactly when every unskipped node is a key of `job_ids`. It then holds `str(job_ids[node])` for each such node, in visiting order. |
| OrTools.WindowedLocations | app/solver/or_tools.py:81-85 | A location gets its time window exactly when it is neither a start nor an end. The pairs come in increasing location order, each with that location's window. |
| OrTools.Solve | app/solver/or_tools.py:124-127 | No solution gives None; otherwise the result is the extracted response, or its KeyError. |
| OrTools.PrepareSolution | app/solver/or_tools.py:27-46 | Walks every vehicle's successor chain and returns exactly the response the vehicles' turns define, or KeyError. |
| OrTools.WalkVehicle | app/solver/or_tools.py:31-44 | One iteration of the vehicle loop stores vehicle k's turn in the routes and adds its duration to the total, or raises that turn's KeyError. |
| OrTools.WalkRoute | app/solver/or_tools.py:33-43 | The inner `while` walk, which runs at least once, stores under the vehicle's key the route's jobs and `delivery_duration` (the walk's cost), or raises KeyError. |
| OrTools.JobsOfStep | app/solver/or_tools.py:37-39 | One more node appends its job id unless it equals the loop index. |
| OrTools.PathCostStep | app/solver/or_tools.py:41-42 | One more step adds the matrix entry of the arc taken. |
| OrTools.FailedWalk | app/solver/or_tools.py:39 | A missing job id on the walk makes the whole route raise KeyError. |
| OrTools.CompletedWalk | app/solver/or_tools.py:36-43 | Reaching the end, the route is the jobs gathered, with the walk's cost as `delivery_duration`. |
| OrTools.JobsOfFailureIsFinal | app/solver/or_tools.py:39 | Once a job lookup has failed, no longer walk succeeds. |
| OrTools.MergeTurn | app/solver/or_tools.py:31-44 | Merging k+1 turns is merging k turns and adding turn k. |
| OrTools.FailureIsFinal | app/solver/or_tools.py:31-44 | Once a vehicle's turn has raised, the later vehicles do not change the result. |
| OrTools.WalksAgree | app/solver/or_tools.py:36-41 | Two walks of the same successor table from the same start agree node by node. |
| OrTools.PathUnique | app/solver/or_tools.py:36-41 | The walk from a start to the sink is determined by the successor table. |
| OrTools.WalkRepeats | app/solver/or_tools.py:36-41 | A walk that comes back to a node repeats what it did from there. |
| OrTools.WalkNodesDistinct | app/solver/or_tools.py:36-41 | A walk visits no node twice before its end. |
| OrTools.SkipOnlyHead | app/solver/or_tools.py:38 | When only the first node equals the loop index, exactly that node is skipped. |
| OrTools.AssignedAt | app/solver/or_tools.py:32-33 | The k-th assignment of a successful merge is vehicle k's key and route. |
| OrTools.MergeSucceeds | app/solver/or_tools.py:29-45 | The merge succeeds exactly when every turn does. Its routes are the dict of the turns' assignments and its total is the sum of their durations. |
| OrTools.MergeError | app/solver/or_tools.py:29-45 | The merge raises only errors some turn raises. |
| OrTools.ExtractSucceeds | app/solver/or_tools.py:27-46 | `prepare_solution` returns a response exactly when every vehicle's turn succeeds, and raises KeyError otherwise. |
| OrTools.ExtractResponse | app/solver/or_tools.py:29-45 | The routes are the dict built from the vehicles' assignments in loop order, and `total_delivery_duration` is the sum of the walks' costs. |
| OrTools.DurationsAreCosts | app/solver/or_tools.py:30-45 | The sum of route durations equals the sum of the walks' matrix costs. |
| OrTools.Listed | app/solver/or_tools.py:36-38 | The listed nodes are exactly the walk's nodes before the end that differ from the loop index. |
| OrTools.TurnSucceeds | app/solver/or_tools.py:32-39 | A vehicle's turn succeeds exactly when the loop index is a key of `vehicle_ids` and every listed node is a key of `job_ids`. |
| OrTools.TurnEntry | app/solver/or_tools.py:32-43 | A successful turn's key is `str(vehicle_ids[k])` and its jobs are `str(job_ids[node])` of the listed nodes in visiting order, never the end node. The sink is listed only as the start of a vehicle whose loop index is not the sink. Its duration is the sum of matrix entries along the walk, into the end included, and `delivery_duration` is always set to it. |
| OrTools.UnknownLoopIndexFails | app/solver/or_tools.py:32 | A loop index that is not a key of `vehicle_ids` makes the whole extraction raise KeyError. |
| OrTools.StartNotSkippedFails | app/solver/or_tools.py:38-39 | A start that is not the loop index, with no job there, makes the extraction raise KeyError, also when the start is the sink. |
| OrTools.AlignedStartListsInterior | app/solver/or_tools.py:38 | A vehicle starting at its loop index lists exactly the nodes strictly between start and end. |
| OrTools.RouteKeys | app/solver/or_tools.py:31-33 | The response's route keys are unique and are exactly `str(vehicle_ids[k])` over the loop indices k. |
| OrTools.VehicleKey | app/solver/or_tools.py:32 | A vehicle's route key exists exactly when its loop index is in `vehicle_ids`. |
| OrTools.RouteOfVehicle | app/solver/or_tools.py:32-43 | The entry under a vehicle's key is that vehicle's route when no later vehicle has the same key. |
| OrTools.RoutesInLoopOrder | app/solver/or_tools.py:31-33 | The routes appear in the order their keys are first assigned in the vehicle loop. |

## Left out

- The OR-Tools search is not modelled: `RoutingModel`, `SolveWithParameters`, the first-solution strategy, guided local search and the one-second limit (app/solver/or_tools.py:52-55, 65-68, 107-122). It is a foreign, time-bounded library. Its successor tables are an input, and nothing is claimed about their optimality or feasibility.
- The constraint calls `AddDimension`, `AddDimensionWithVehicleCapacity`, `SetRange` and `AddVariableMinimizedByFinalizer` (app/solver/or_tools.py:73-79, 85, 93-97, 108-113) are foreign. Only which locations the first time-window loop passes to `SetRange` is modelled.
- The second time-window loop (app/solver/or_tools.py:87-92) is not modelled. It only sets ranges on the solver's start variables. cvrp.py never puts `time_windows` into the data, so neither loop runs in this repository.
- `print_solution` is not modelled: it only prints to the console. The same holds for the `__main__` block that reads ../data/input.json.
- app/controller.py (web routing) and app/input_validator.py (JSON schema validation) are not part of this model.
- OR-Tools' index-to-node conversion is not modelled. OR-Tools gives every vehicle's start and end an index of its own, so indices and nodes differ once vehicles share a node. The model works in node space throughout.
- Ids are JSON numbers (integers only) or strings. Floats, booleans, and the TypeError of an unhashable id or a non-integer index are not modelled.
- `str()` of a negative integer id is written out. `str()` of other JSON values is not modelled.
- OrTools.PrepareSolution: requires a square duration matrix and a successor table per vehicle that reaches the sink. A chain that loops forever, which would hang the Python code, is excluded by this requirement rather than modelled.
- OrTools.Routed: the arc of an empty route, from a start straight to its end, is charged `duration_matrix[start][sink]`. OR-Tools charges 0 for that arc. The two agree on the data cvrp.py builds, whose last column is zero, but not on data with a non-zero last column.
- A request entry that lacks `id`, `start_index`, `capacity`, `location_index` or `delivery` raises KeyError in the code (cvrp.py:17, 20, 29, 34, 35). The model's vehicles and jobs always carry every field, so that KeyError is not modelled.
- OrTools.DurationCallback: has no contract of its own. Its value on the augmented matrix is stated by `Cvrp.SinkArcsAreFree`.
- OrTools.DemandCallback: has no contract of its own. Its value is stated by `Cvrp.DemandCallbackReadsJobs`.
- Cvrp.CreateDurationMatrix: the deep copy needs no proof. A sequence is a value, so the caller's matrix cannot change.
- Cvrp.GetDemands: Python evaluates `job['delivery'][0]` before the subscript assignment. Both failures raise IndexError, so the order is not distinguished.
- Cvrp.SolveVehicleRoutingProblem: requires the supplied solution to be routed over the data the request normalises to, which stands in for the search.
