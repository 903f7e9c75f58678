/** The OR-Tools side of the service (app/solver/or_tools.py): the routing
    data `solve` is given, the two callbacks the solver evaluates, which
    locations get a time window, and `prepare_solution`, the walk that reads
    the solver's assignment back into the response.

    Everything happens in node space: `routing.Start(k)` is `starts[k]`,
    `routing.IsEnd` is "the node is the sink" and
    `solution.Value(routing.NextVar(i))` is `next[k][i]`, one successor table
    per vehicle (two vehicles may share a start node). The search that
    produces the successor tables is not modelled. */
module OrTools {
  import opened Python
  import opened PyDict

  /** The `data` dict that cvrp.py hands to `solve`. */
  datatype RoutingData = RoutingData(
    durationMatrix: seq<seq<int>>,
    numVehicles: nat,
    starts: seq<int>,
    ends: seq<int>,
    demands: seq<int>,
    vehicleCapacities: seq<int>,
    vehicleIds: Dict<int, Id>,
    jobIds: Dict<int, Id>)

  /** A value of `result['routes']`: the job ids in visiting order and
      `delivery_duration`, which is absent until the walk takes a step. */
  datatype RouteEntry = RouteEntry(jobs: seq<string>, deliveryDuration: Option<int>)

  /** The dict `prepare_solution` returns. */
  datatype Response = Response(totalDeliveryDuration: int, routes: Dict<string, RouteEntry>)

  ghost predicate IsSquare(m: seq<seq<int>>)
  {
    forall i :: 0 <= i < |m| ==> |m[i]| == |m|
  }

  /** The node every route ends at: the last row of the duration matrix. */
  function Sink(data: RoutingData): int
  {
    |data.durationMatrix| - 1
  }

  /** `duration_callback`: the matrix entry of an arc. */
  function DurationCallback(dm: seq<seq<int>>, from: nat, to: nat): int
    requires from < |dm| && to < |dm[from]|
  {
    dm[from][to]
  }

  /** `demand_callback`: the demand of a node. */
  function DemandCallback(demands: seq<int>, node: nat): int
    requires node < |demands|
  {
    demands[node]
  }

  /** `path` is the walk the successor table `succ` takes from `start`
      until it next reaches `sink`, through nodes below `nodes`. A vehicle's
      start index is never an end index, so the walk takes at least one arc
      even when its start node is the sink. */
  ghost predicate IsWalk(succ: seq<int>, start: int, sink: int, nodes: nat, path: seq<int>)
  {
    && |path| > 1 && path[0] == start && path[|path| - 1] == sink
    && (forall i :: 0 <= i < |path| ==> 0 <= path[i] < nodes)
    && (forall i :: 0 < i < |path| - 1 ==> path[i] != sink)
    && (forall i :: 0 <= i < |path| - 1 ==> path[i] < |succ|)
    && (forall i {:trigger succ[path[i]]} :: 0 <= i < |path| - 1 ==> succ[path[i]] == path[i + 1])
  }

  /** `path` is a nonempty list of rows of `dm`. */
  ghost predicate OnMatrix(dm: seq<seq<int>>, path: seq<int>)
  {
    |path| > 0 && forall i :: 0 <= i < |path| ==> 0 <= path[i] < |dm|
  }

  /** The walks are over the square duration matrix. */
  ghost predicate InMatrix(dm: seq<seq<int>>, paths: seq<seq<int>>)
  {
    IsSquare(dm) && forall k :: 0 <= k < |paths| ==> OnMatrix(dm, paths[k])
  }

  /** What `prepare_solution` relies on once the solver has returned an
      assignment: one vehicle per start, every vehicle ending at the sink,
      and `paths[k]` the walk of vehicle `k` from its start to the sink. */
  ghost predicate Routed(data: RoutingData, next: seq<seq<int>>, paths: seq<seq<int>>)
  {
    && |data.durationMatrix| > 0 && InMatrix(data.durationMatrix, paths)
    && data.numVehicles == |data.starts| == |data.ends| == |next| == |paths|
    && (forall k :: 0 <= k < |paths| ==> data.ends[k] == Sink(data))
    && (forall k :: 0 <= k < |paths| ==>
          IsWalk(next[k], data.starts[k], Sink(data), |data.durationMatrix|, paths[k]))
  }

  /** The sum of `duration_callback` over the consecutive arcs of `path`. */
  function PathCost(dm: seq<seq<int>>, path: seq<int>): (r: int)
    requires IsSquare(dm) && forall i :: 0 <= i < |path| ==> 0 <= path[i] < |dm|
  {
    if |path| < 2 then 0
    else PathCost(dm, path[..|path| - 1]) + DurationCallback(dm, path[|path| - 2], path[|path| - 1])
  }

  /** The nodes of a walk whose job is listed: those that differ from the
      vehicle's loop index `k` (not its start node). */
  function Skip(nodes: seq<int>, k: int): (r: seq<int>)
    ensures forall x :: x in r <==> x in nodes && x != k
  {
    if nodes == [] then []
    else
      var x := nodes[|nodes| - 1];
      Skip(nodes[..|nodes| - 1], k) + (if x == k then [] else [x])
  }

  /** The job ids the walk appends while at `nodes`, or the KeyError a node
      without a job raises. */
  function JobsOf(nodes: seq<int>, k: int, jobIds: Dict<int, Id>): (r: Result<seq<string>>)
    ensures r.Err? ==> r.error == KeyError
  {
    if nodes == [] then Ok([])
    else
      var x := nodes[|nodes| - 1];
      match JobsOf(nodes[..|nodes| - 1], k, jobIds)
      case Err(e) => Err(e)
      case Ok(jobs) =>
        if x == k then Ok(jobs)
        else match Get(jobIds, x)
          case None => Err(KeyError)
          case Some(id) => Ok(jobs + [Str(id)])
  }

  /** The entry a walk leaves under its vehicle's key, and its duration, or
      the KeyError it raises. */
  function RouteOf(dm: seq<seq<int>>, path: seq<int>, k: int, jobIds: Dict<int, Id>)
    : (r: Result<(RouteEntry, int)>)
    requires IsSquare(dm) && OnMatrix(dm, path)
    ensures r.Err? ==> r.error == KeyError
  {
    match JobsOf(path[..|path| - 1], k, jobIds)
    case Err(e) => Err(e)
    case Ok(jobs) =>
      var cost := PathCost(dm, path);
      Ok((RouteEntry(jobs, Some(cost)), cost))
  }

  /** Vehicle `k`'s turn of the loop, apart from the dict it is merged
      into: the key `str(vehicle_ids[k])`, the entry its walk leaves under
      that key and the route's duration. */
  datatype Turn = Turn(key: string, entry: RouteEntry, duration: int)

  /** Vehicle `k`'s turn, or the KeyError it raises. */
  function VehicleTurn(data: RoutingData, paths: seq<seq<int>>, k: nat): (r: Result<Turn>)
    requires InMatrix(data.durationMatrix, paths) && k < |paths|
    ensures r.Err? ==> r.error == KeyError
  {
    match Get(data.vehicleIds, k)
    case None => Err(KeyError)
    case Some(vid) =>
      match RouteOf(data.durationMatrix, paths[k], k, data.jobIds)
      case Err(e) => Err(e)
      case Ok(route) => Ok(Turn(Str(vid), route.0, route.1))
  }

  /** Every vehicle's turn, in loop order. */
  function Turns(data: RoutingData, paths: seq<seq<int>>): seq<Result<Turn>>
    requires InMatrix(data.durationMatrix, paths)
  {
    seq(|paths|, k requires 0 <= k < |paths| => VehicleTurn(data, paths, k))
  }

  /** `result['routes']` and `sum_route_time` after the first `m` turns, or
      the exception the first failing turn raised. */
  function Merge(turns: seq<Result<Turn>>, m: nat): (r: Result<(Dict<string, RouteEntry>, int)>)
    requires m <= |turns|
  {
    if m == 0 then Ok(([], 0))
    else match Merge(turns, m - 1)
      case Err(e) => Err(e)
      case Ok(acc) => AddTurn(acc, turns[m - 1])
  }

  /** A turn stores its entry under its key and adds its duration to the
      total, unless it raised. */
  function AddTurn(acc: (Dict<string, RouteEntry>, int), turn: Result<Turn>)
    : (r: Result<(Dict<string, RouteEntry>, int)>)
  {
    match turn
    case Err(e) => Err(e)
    case Ok(t) => Ok((Put(acc.0, t.key, t.entry), acc.1 + t.duration))
  }

  /** The walk lists, in visiting order, the job id of every node it passes
      other than the loop index `k`, and fails exactly when one of those nodes
      is not a job location. */
  lemma {:induction false} JobsOfListsSkippedNodes(nodes: seq<int>, k: int, jobIds: Dict<int, Id>)
    ensures JobsOf(nodes, k, jobIds).Ok? <==> forall x :: x in Skip(nodes, k) ==> Get(jobIds, x).Some?
    ensures JobsOf(nodes, k, jobIds).Ok? ==>
              |JobsOf(nodes, k, jobIds).value| == |Skip(nodes, k)|
              && forall i :: 0 <= i < |Skip(nodes, k)| ==>
                   Get(jobIds, Skip(nodes, k)[i]).Some?
                   && JobsOf(nodes, k, jobIds).value[i] == Str(Get(jobIds, Skip(nodes, k)[i]).value)
  {
    if nodes != [] {
      JobsOfListsSkippedNodes(nodes[..|nodes| - 1], k, jobIds);
    }
  }

  /** The response `prepare_solution` builds from the vehicles' walks. */
  function Extract(data: RoutingData, paths: seq<seq<int>>): (r: Result<Response>)
    requires InMatrix(data.durationMatrix, paths)
  {
    match Merge(Turns(data, paths), |paths|)
    case Err(e) => Err(e)
    case Ok(acc) => Ok(Response(acc.1, acc.0))
  }

  /** The time windows `solve` constrains when the data carries
      `time_windows`: the window of every location that is neither a start
      nor an end, in location order, paired with its location. */
  method WindowedLocations(windows: seq<(int, int)>, starts: seq<int>, ends: seq<int>)
    returns (r: seq<(int, (int, int))>)
    ensures forall x :: x in Keys(r) <==> 0 <= x < |windows| && x !in starts && x !in ends
    ensures forall a, b :: 0 <= a < b < |r| ==> r[a].0 < r[b].0
    ensures forall a :: 0 <= a < |r| ==> 0 <= r[a].0 < |windows| && r[a].1 == windows[r[a].0]
  {
    r := [];
    var location := 0;
    while location < |windows|
      invariant location <= |windows|
      invariant forall x :: x in Keys(r) <==> 0 <= x < location && x !in starts && x !in ends
      invariant forall a, b :: 0 <= a < b < |r| ==> r[a].0 < r[b].0
      invariant forall a :: 0 <= a < |r| ==> 0 <= r[a].0 < location && r[a].1 == windows[r[a].0]
    {
      if location in starts || location in ends {
        location := location + 1;
        continue;
      }
      assert Keys(r + [(location, windows[location])]) == Keys(r) + [location];
      r := r + [(location, windows[location])];
      location := location + 1;
    }
  }

  /** `solve` once the search has finished: no assignment gives None, an
      assignment gives the response `prepare_solution` reads from it. */
  method Solve(data: RoutingData, solution: Option<seq<seq<int>>>, ghost paths: seq<seq<int>>)
    returns (r: Result<Option<Response>>)
    requires solution.Some? ==> Routed(data, solution.value, paths)
    ensures solution.None? ==> r == Ok(None)
    ensures solution.Some? ==> r.Ok? == Extract(data, paths).Ok?
    ensures solution.Some? && r.Ok? ==> r.value == Some(Extract(data, paths).value)
    ensures r.Err? ==> Extract(data, paths) == Err(r.error)
  {
    if solution.None? {
      return Ok(None);
    }
    var response := PrepareSolution(data, solution.value, paths);
    r := match response
         case Err(e) => Err(e)
         case Ok(v) => Ok(Some(v));
  }

  /** `prepare_solution`: for each vehicle loop index `k`, start an entry
      under `str(vehicle_ids[k])`, walk from the start to the sink, then add
      the route's duration to the total. */
  method PrepareSolution(data: RoutingData, next: seq<seq<int>>, ghost paths: seq<seq<int>>)
    returns (r: Result<Response>)
    requires Routed(data, next, paths)
    ensures r == Extract(data, paths)
  {
    var routes: Dict<string, RouteEntry> := [];
    var sumRouteTime := 0;
    var k := 0;
    while k < data.numVehicles
      invariant k <= data.numVehicles
      invariant Merge(Turns(data, paths), k) == Ok((routes, sumRouteTime))
    {
      MergeTurn(data, paths, k, (routes, sumRouteTime));
      var turn := WalkVehicle(data, next, paths, k, routes, sumRouteTime);
      if turn.Err? {
        FailureIsFinal(Turns(data, paths), k + 1, |paths|);
        return Err(KeyError);
      }
      routes, sumRouteTime := turn.value.0, turn.value.1;
      k := k + 1;
    }
    r := Ok(Response(sumRouteTime, routes));
  }

  /** One turn of the vehicle loop of `prepare_solution`: look up the
      vehicle's id by its loop index, walk its route, add the route's
      duration to the total. */
  method WalkVehicle(data: RoutingData, next: seq<seq<int>>, ghost paths: seq<seq<int>>, k: nat,
                     routes0: Dict<string, RouteEntry>, sumRouteTime: int)
    returns (r: Result<(Dict<string, RouteEntry>, int)>)
    requires InMatrix(data.durationMatrix, paths) && k < |paths| == |next| == |data.starts|
    requires IsWalk(next[k], data.starts[k], Sink(data), |data.durationMatrix|, paths[k])
    ensures r == AddTurn((routes0, sumRouteTime), VehicleTurn(data, paths, k))
  {
    var found := Get(data.vehicleIds, k);
    if found.None? {
      return Err(KeyError);
    }
    var walked := WalkRoute(data.durationMatrix, next[k], paths[k], data.starts[k], k,
                            data.jobIds, Str(found.value), routes0);
    ghost var route := RouteOf(data.durationMatrix, paths[k], k, data.jobIds);
    assert VehicleTurn(data, paths, k)
           == if route.Err? then Err(KeyError) else Ok(Turn(Str(found.value), route.value.0, route.value.1));
    if walked.Err? {
      return Err(KeyError);
    }
    r := Ok((walked.value.0, sumRouteTime + walked.value.1));
  }

  /** The inner loop of `prepare_solution`: the entry under `vehicleId` is
      reset to an empty jobs list, then the walk from `start` appends the
      job of every node other than `k` and updates `delivery_duration` after
      each arc, until the sink is reached. Returns the routes and the
      route's duration. */
  method WalkRoute(dm: seq<seq<int>>, succ: seq<int>, ghost path: seq<int>, start: int, k: int,
                   jobIds: Dict<int, Id>, vehicleId: string, routes0: Dict<string, RouteEntry>)
    returns (r: Result<(Dict<string, RouteEntry>, int)>)
    requires IsSquare(dm) && IsWalk(succ, start, |dm| - 1, |dm|, path)
    ensures r == match RouteOf(dm, path, k, jobIds)
                 case Err(e) => Err(e)
                 case Ok(route) => Ok((Put(routes0, vehicleId, route.0), route.1))
  {
    var routes := Put(routes0, vehicleId, RouteEntry([], None));
    var jobs: seq<string> := [];
    var duration: Option<int> := None;
    var routeDuration := 0;
    var node := start;
    var atStart := true;
    ghost var pos := 0;
    while atStart || node != |dm| - 1
      invariant pos < |path| && node == path[pos] && atStart == (pos == 0)
      invariant JobsOf(path[..pos], k, jobIds) == Ok(jobs)
      invariant routeDuration == PathCost(dm, path[..pos + 1])
      invariant duration == if pos > 0 then Some(routeDuration) else None
      invariant routes == Put(routes0, vehicleId, RouteEntry(jobs, duration))
      decreases |path| - pos
    {
      ghost var entry := RouteEntry(jobs, duration);
      JobsOfStep(path, pos, k, jobIds);
      if node != k {
        var job := Get(jobIds, node);
        if job.None? {
          FailedWalk(dm, path, pos + 1, k, jobIds);
          return Err(KeyError);
        }
        jobs := jobs + [Str(job.value)];
      }
      var previous := node;
      node := succ[node];
      PathCostStep(dm, path, pos);
      routeDuration := routeDuration + DurationCallback(dm, previous, node);
      duration := Some(routeDuration);
      routes := Put(routes, vehicleId, RouteEntry(jobs, duration));
      PutPut(routes0, vehicleId, entry, RouteEntry(jobs, duration));
      atStart := false;
      pos := pos + 1;
    }
    CompletedWalk(dm, path, pos, k, jobIds, jobs);
    r := Ok((routes, routeDuration));
  }

  /** One more node of the walk: its job is appended unless it is `k`, or
      the walk fails at it. */
  lemma JobsOfStep(path: seq<int>, pos: nat, k: int, jobIds: Dict<int, Id>)
    requires pos < |path|
    ensures JobsOf(path[..pos + 1], k, jobIds)
            == match JobsOf(path[..pos], k, jobIds)
               case Err(e) => Err(e)
               case Ok(jobs) =>
                 if path[pos] == k then Ok(jobs)
                 else match Get(jobIds, path[pos])
                   case None => Err(KeyError)
                   case Some(id) => Ok(jobs + [Str(id)])
  {
    assert path[..pos + 1][..pos] == path[..pos];
  }

  /** One more arc of the walk adds its duration. */
  lemma PathCostStep(dm: seq<seq<int>>, path: seq<int>, pos: nat)
    requires IsSquare(dm) && OnMatrix(dm, path) && pos + 1 < |path|
    ensures PathCost(dm, path[..pos + 2])
            == PathCost(dm, path[..pos + 1]) + dm[path[pos]][path[pos + 1]]
  {
    assert path[..pos + 2][..pos + 1] == path[..pos + 1];
  }

  /** A walk that fails at some node before the sink fails. */
  lemma FailedWalk(dm: seq<seq<int>>, path: seq<int>, n: nat, k: int, jobIds: Dict<int, Id>)
    requires IsSquare(dm) && OnMatrix(dm, path) && n < |path|
    requires JobsOf(path[..n], k, jobIds).Err?
    ensures RouteOf(dm, path, k, jobIds) == Err(KeyError)
  {
    JobsOfFailureIsFinal(path[..n], path[..|path| - 1], k, jobIds);
  }

  /** A walk that reaches the sink leaves the jobs it listed and its duration. */
  lemma CompletedWalk(dm: seq<seq<int>>, path: seq<int>, pos: nat, k: int,
                      jobIds: Dict<int, Id>, jobs: seq<string>)
    requires IsSquare(dm) && OnMatrix(dm, path) && pos + 1 == |path|
    requires JobsOf(path[..pos], k, jobIds) == Ok(jobs)
    ensures
      var cost := PathCost(dm, path[..pos + 1]);
      RouteOf(dm, path, k, jobIds) == Ok((RouteEntry(jobs, Some(cost)), cost))
  {
    assert path[..pos + 1] == path;
  }

  /** A KeyError at a node of the walk aborts the whole walk. */
  lemma {:induction false} JobsOfFailureIsFinal(
    nodes: seq<int>, longer: seq<int>, k: int, jobIds: Dict<int, Id>)
    requires nodes <= longer && JobsOf(nodes, k, jobIds).Err?
    ensures JobsOf(longer, k, jobIds) == Err(KeyError)
  {
    if |longer| > |nodes| {
      assert longer[..|longer| - 1][..|nodes|] == nodes;
      JobsOfFailureIsFinal(nodes, longer[..|longer| - 1], k, jobIds);
    } else {
      assert nodes == longer;
    }
  }

  /** The turn of vehicle `k` is merged into what the turns before it built. */
  lemma MergeTurn(data: RoutingData, paths: seq<seq<int>>, k: nat,
                  acc: (Dict<string, RouteEntry>, int))
    requires InMatrix(data.durationMatrix, paths) && k < |paths|
    requires Merge(Turns(data, paths), k) == Ok(acc)
    ensures Merge(Turns(data, paths), k + 1) == AddTurn(acc, VehicleTurn(data, paths, k))
  {
    assert Turns(data, paths)[k] == VehicleTurn(data, paths, k);
  }

  /** A failing turn aborts `prepare_solution`: no later turn runs. */
  lemma {:induction false} FailureIsFinal(turns: seq<Result<Turn>>, m: nat, m': nat)
    requires m <= m' <= |turns| && Merge(turns, m).Err?
    ensures Merge(turns, m') == Merge(turns, m)
  {
    if m < m' {
      FailureIsFinal(turns, m, m' - 1);
    }
  }

  // The walk a vehicle's route follows

  /** Two walks of one successor table from one start agree on every
      position both reach. */
  lemma {:induction false} WalksAgree(succ: seq<int>, start: int, sink: int, nodes: nat,
                                      p: seq<int>, q: seq<int>, i: nat)
    requires IsWalk(succ, start, sink, nodes, p) && IsWalk(succ, start, sink, nodes, q)
    requires i < |p| && i < |q|
    ensures p[i] == q[i]
  {
    if i > 0 {
      WalksAgree(succ, start, sink, nodes, p, q, i - 1);
      assert succ[p[i - 1]] == p[i] && succ[q[i - 1]] == q[i];
    }
  }

  /** The walk from a start to the sink is determined by the successor
      table, so the ghost witness of a route is unique. */
  lemma PathUnique(succ: seq<int>, start: int, sink: int, nodes: nat, p: seq<int>, q: seq<int>)
    requires IsWalk(succ, start, sink, nodes, p) && IsWalk(succ, start, sink, nodes, q)
    ensures p == q
  {
    if |p| < |q| {
      WalksAgree(succ, start, sink, nodes, p, q, |p| - 1);
      assert false;
    } else if |q| < |p| {
      WalksAgree(succ, start, sink, nodes, p, q, |q| - 1);
      assert false;
    } else {
      forall i | 0 <= i < |p| ensures p[i] == q[i] {
        WalksAgree(succ, start, sink, nodes, p, q, i);
      }
    }
  }

  /** Once a walk is at a node it was at before, it repeats what it did
      from there. */
  lemma {:induction false} WalkRepeats(succ: seq<int>, start: int, sink: int, nodes: nat,
                                       path: seq<int>, i: nat, j: nat, t: nat)
    requires IsWalk(succ, start, sink, nodes, path) && i < j && j + t < |path|
    ensures path[i] == path[j] ==> path[i + t] == path[j + t]
  {
    if t > 0 {
      WalkRepeats(succ, start, sink, nodes, path, i, j, t - 1);
      assert succ[path[i + t - 1]] == path[i + t] && succ[path[j + t - 1]] == path[j + t];
    }
  }

  /** A walk visits no node twice before its end: a repeated node would
      make it come back to the sink before the end. */
  lemma WalkNodesDistinct(succ: seq<int>, start: int, sink: int, nodes: nat, path: seq<int>)
    requires IsWalk(succ, start, sink, nodes, path)
    ensures forall i, j :: 0 <= i < j < |path| - 1 ==> path[i] != path[j]
  {
    forall i, j | 0 <= i < j < |path| - 1 ensures path[i] != path[j] {
      var t := |path| - 1 - j;
      WalkRepeats(succ, start, sink, nodes, path, i, j, t);
      assert 0 < i + t < |path| - 1;
    }
  }

  /** With `k` at the head of the nodes and nowhere else, skipping `k`
      drops exactly the head. */
  lemma {:induction false} SkipOnlyHead(nodes: seq<int>, k: int)
    requires |nodes| > 0 && nodes[0] == k && k !in nodes[1..]
    ensures Skip(nodes, k) == nodes[1..]
  {
    if |nodes| > 1 {
      var init := nodes[..|nodes| - 1];
      assert init[1..] == nodes[1..|nodes| - 1];
      SkipOnlyHead(init, k);
      assert nodes[|nodes| - 1] in nodes[1..];
    }
  }

  // What the turns of the vehicle loop add up to

  /** The first `m` turns all succeeded. */
  ghost predicate Succeeded(turns: seq<Result<Turn>>, m: nat)
  {
    m <= |turns| && forall k :: 0 <= k < m ==> turns[k].Ok?
  }

  /** The `(key, entry)` assignments of the first `m` turns, in loop order. */
  function Assigned(turns: seq<Result<Turn>>, m: nat): seq<(string, RouteEntry)>
    requires Succeeded(turns, m)
  {
    if m == 0 then []
    else Assigned(turns, m - 1) + [(turns[m - 1].value.key, turns[m - 1].value.entry)]
  }

  /** The durations of the first `m` turns, summed. */
  function Durations(turns: seq<Result<Turn>>, m: nat): int
    requires Succeeded(turns, m)
  {
    if m == 0 then 0 else Durations(turns, m - 1) + turns[m - 1].value.duration
  }

  /** Turn `k` makes the `k`-th assignment. */
  lemma {:induction false} AssignedAt(turns: seq<Result<Turn>>, m: nat, k: nat)
    requires Succeeded(turns, m) && k < m
    ensures |Assigned(turns, m)| == m
    ensures Assigned(turns, m)[k] == (turns[k].value.key, turns[k].value.entry)
  {
    if k < m - 1 {
      AssignedAt(turns, m - 1, k);
    } else if m > 1 {
      AssignedAt(turns, m - 1, 0);
    }
  }

  /** A successful turn extends the comprehension by its own assignment. */
  lemma AddTurnAssigns(prev: seq<(string, RouteEntry)>, total: int, t: Turn)
    ensures AddTurn((FromPairs(prev), total), Ok(t))
            == Ok((FromPairs(prev + [(t.key, t.entry)]), total + t.duration))
  {
    var pairs := prev + [(t.key, t.entry)];
    assert pairs[..|pairs| - 1] == prev;
  }

  /** Merging succeeds exactly when every turn did, and then `routes` is the
      dict comprehension of the turns' assignments and the total the sum of
      their durations. */
  lemma {:induction false} MergeSucceeds(turns: seq<Result<Turn>>, m: nat)
    requires m <= |turns|
    ensures Merge(turns, m).Ok? <==> Succeeded(turns, m)
    ensures Merge(turns, m).Ok? ==>
              Merge(turns, m).value == (FromPairs(Assigned(turns, m)), Durations(turns, m))
  {
    if m > 0 {
      MergeSucceeds(turns, m - 1);
      if Succeeded(turns, m) {
        assert Succeeded(turns, m - 1);
        AddTurnAssigns(Assigned(turns, m - 1), Durations(turns, m - 1), turns[m - 1].value);
      } else if Succeeded(turns, m - 1) {
        assert turns[m - 1].Err?;
      }
    }
  }

  /** Merging raises only an exception some turn raised. */
  lemma {:induction false} MergeError(turns: seq<Result<Turn>>, m: nat, e: Error)
    requires m <= |turns| && forall k :: 0 <= k < |turns| ==> turns[k] != Err(e)
    ensures Merge(turns, m) != Err(e)
  {
    if m > 0 {
      MergeError(turns, m - 1, e);
    }
  }

  // What `prepare_solution` returns

  /** The durations of the first `m` routes, summed. */
  function TotalCost(dm: seq<seq<int>>, paths: seq<seq<int>>, m: nat): int
    requires InMatrix(dm, paths) && m <= |paths|
  {
    if m == 0 then 0 else TotalCost(dm, paths, m - 1) + PathCost(dm, paths[m - 1])
  }

  /** The `(key, entry)` assignments of the vehicle loop, when every turn succeeds. */
  function RouteAssignments(data: RoutingData, paths: seq<seq<int>>): seq<(string, RouteEntry)>
    requires InMatrix(data.durationMatrix, paths) && Succeeded(Turns(data, paths), |paths|)
  {
    Assigned(Turns(data, paths), |paths|)
  }

  /** `prepare_solution` returns a response exactly when every vehicle's turn
      succeeds, and raises KeyError otherwise. */
  lemma ExtractSucceeds(data: RoutingData, paths: seq<seq<int>>)
    requires InMatrix(data.durationMatrix, paths)
    ensures Extract(data, paths).Ok? <==> forall k :: 0 <= k < |paths| ==> VehicleTurn(data, paths, k).Ok?
    ensures Extract(data, paths).Err? ==> Extract(data, paths) == Err(KeyError)
  {
    var turns := Turns(data, paths);
    MergeSucceeds(turns, |paths|);
    MergeError(turns, |paths|, IndexError);
    if Succeeded(turns, |paths|) {
      forall k | 0 <= k < |paths| ensures VehicleTurn(data, paths, k).Ok? {
        assert turns[k] == VehicleTurn(data, paths, k);
      }
    }
  }

  /** A successful response is the dict comprehension of the vehicles'
      assignments, and its total is the sum of the routes' durations. */
  lemma ExtractResponse(data: RoutingData, paths: seq<seq<int>>)
    requires InMatrix(data.durationMatrix, paths) && Extract(data, paths).Ok?
    ensures Succeeded(Turns(data, paths), |paths|)
    ensures Extract(data, paths).value.routes == FromPairs(RouteAssignments(data, paths))
    ensures Extract(data, paths).value.totalDeliveryDuration
            == TotalCost(data.durationMatrix, paths, |paths|)
  {
    var turns := Turns(data, paths);
    MergeSucceeds(turns, |paths|);
    DurationsAreCosts(data, paths, |paths|);
  }

  lemma DurationsAreCosts(data: RoutingData, paths: seq<seq<int>>, m: nat)
    requires InMatrix(data.durationMatrix, paths) && Succeeded(Turns(data, paths), m)
    ensures m <= |paths|
    ensures Durations(Turns(data, paths), m) == TotalCost(data.durationMatrix, paths, m)
  {
    var turns := Turns(data, paths);
    forall k | 0 <= k < m
      ensures turns[k].value.duration == PathCost(data.durationMatrix, paths[k])
    {
      assert turns[k] == VehicleTurn(data, paths, k);
      TurnDuration(data, paths, k);
    }
    SumOfCosts(data.durationMatrix, paths, turns, m);
  }

  /** Summing turns that each report their path's cost sums the costs. */
  lemma {:induction false} SumOfCosts(dm: seq<seq<int>>, paths: seq<seq<int>>, turns: seq<Result<Turn>>, m: nat)
    requires InMatrix(dm, paths) && Succeeded(turns, m) && m <= |paths|
    requires forall k :: 0 <= k < m ==> turns[k].value.duration == PathCost(dm, paths[k])
    ensures Durations(turns, m) == TotalCost(dm, paths, m)
  {
    if m > 0 {
      SumOfCosts(dm, paths, turns, m - 1);
    }
  }

  /** A turn that succeeds reports its path's cost. */
  lemma TurnDuration(data: RoutingData, paths: seq<seq<int>>, k: nat)
    requires InMatrix(data.durationMatrix, paths) && k < |paths| && VehicleTurn(data, paths, k).Ok?
    ensures VehicleTurn(data, paths, k).value.duration == PathCost(data.durationMatrix, paths[k])
  {
  }

  // One vehicle's turn

  /** The nodes whose jobs vehicle `k`'s turn lists: the walk without its
      final sink, less every node equal to the loop index `k`. */
  function Listed(path: seq<int>, k: int): (r: seq<int>)
    requires |path| > 0
    ensures forall x :: x in r <==> x in path[..|path| - 1] && x != k
  {
    Skip(path[..|path| - 1], k)
  }

  /** A turn succeeds exactly when the loop index is a key of `vehicle_ids`
      and every listed node is a key of `job_ids`. */
  lemma TurnSucceeds(data: RoutingData, paths: seq<seq<int>>, k: nat)
    requires InMatrix(data.durationMatrix, paths) && k < |paths|
    ensures VehicleTurn(data, paths, k).Ok?
            <==> Get(data.vehicleIds, k).Some?
                 && forall x :: x in Listed(paths[k], k) ==> Get(data.jobIds, x).Some?
  {
    JobsOfListsSkippedNodes(paths[k][..|paths[k]| - 1], k, data.jobIds);
  }

  /** A successful turn stores, under `str` of the vehicle id found at the
      loop index, the ids of the listed nodes' jobs in visiting order and the
      route's duration as `delivery_duration`. The end of the walk is never
      listed; the sink is listed only as the start of a vehicle whose loop
      index is not the sink. */
  lemma TurnEntry(data: RoutingData, next: seq<seq<int>>, paths: seq<seq<int>>, k: nat)
    requires Routed(data, next, paths) && k < |paths| && VehicleTurn(data, paths, k).Ok?
    ensures Sink(data) in Listed(paths[k], k) <==> data.starts[k] == Sink(data) && k != Sink(data)
    ensures Get(data.vehicleIds, k).Some?
    ensures VehicleTurn(data, paths, k).value.key == Str(Get(data.vehicleIds, k).value)
    ensures var jobs := VehicleTurn(data, paths, k).value.entry.jobs;
            var listed := Listed(paths[k], k);
            && |jobs| == |listed|
            && forall i :: 0 <= i < |listed| ==>
                 Get(data.jobIds, listed[i]).Some? && jobs[i] == Str(Get(data.jobIds, listed[i]).value)
    ensures VehicleTurn(data, paths, k).value.duration == PathCost(data.durationMatrix, paths[k])
    ensures var t := VehicleTurn(data, paths, k).value;
            t.entry.deliveryDuration == Some(t.duration)
  {
    var path := paths[k];
    JobsOfListsSkippedNodes(path[..|path| - 1], k, data.jobIds);
    assert path[..|path| - 1][0] == data.starts[k];
    var route := RouteOf(data.durationMatrix, path, k, data.jobIds);
    assert JobsOf(path[..|path| - 1], k, data.jobIds) == Ok(route.value.0.jobs);
  }

  /** Vehicle ids are looked up by loop index: a loop index that is not a
      key of `vehicle_ids` makes `prepare_solution` raise KeyError. */
  lemma UnknownLoopIndexFails(data: RoutingData, paths: seq<seq<int>>, k: nat)
    requires InMatrix(data.durationMatrix, paths) && k < |paths|
    requires Get(data.vehicleIds, k).None?
    ensures Extract(data, paths) == Err(KeyError)
  {
    ExtractSucceeds(data, paths);
    assert !VehicleTurn(data, paths, k).Ok?;
  }

  /** The start node is skipped only when it equals the loop index: a vehicle
      whose start is not its loop index, and has no job, makes
      `prepare_solution` raise KeyError, even when it starts at the sink. */
  lemma StartNotSkippedFails(data: RoutingData, next: seq<seq<int>>, paths: seq<seq<int>>, k: nat)
    requires Routed(data, next, paths) && k < |paths|
    requires data.starts[k] != k
    requires Get(data.jobIds, data.starts[k]).None?
    ensures Extract(data, paths) == Err(KeyError)
  {
    var path := paths[k];
    assert path[..|path| - 1][0] == data.starts[k];
    TurnSucceeds(data, paths, k);
    ExtractSucceeds(data, paths);
  }

  /** When a vehicle starts at the node equal to its loop index, the turn
      lists every node strictly between the start and the end: the walk
      never comes back to its start. */
  lemma AlignedStartListsInterior(data: RoutingData, next: seq<seq<int>>, paths: seq<seq<int>>, k: nat)
    requires Routed(data, next, paths) && k < |paths|
    requires data.starts[k] == k
    ensures Listed(paths[k], k) == paths[k][1..|paths[k]| - 1]
  {
    var path := paths[k];
    WalkNodesDistinct(next[k], data.starts[k], Sink(data), |data.durationMatrix|, path);
    assert k !in path[..|path| - 1][1..];
    assert path[..|path| - 1][1..] == path[1..|path| - 1];
    SkipOnlyHead(path[..|path| - 1], k);
  }

  // The routes of a successful response

  /** The response has one entry per distinct key `str(vehicle_ids[k])`. */
  lemma RouteKeys(data: RoutingData, paths: seq<seq<int>>, key: string)
    requires InMatrix(data.durationMatrix, paths) && Extract(data, paths).Ok?
    ensures UniqueKeys(Extract(data, paths).value.routes)
    ensures key in Keys(Extract(data, paths).value.routes)
            <==> exists k :: 0 <= k < |paths| && Get(data.vehicleIds, k).Some?
                             && key == Str(Get(data.vehicleIds, k).value)
  {
    ExtractResponse(data, paths);
    ExtractSucceeds(data, paths);
    var turns := Turns(data, paths);
    var pairs := RouteAssignments(data, paths);
    FromPairsUnique(pairs);
    FromPairsKeys(pairs, key);
    if |paths| > 0 {
      AssignedAt(turns, |paths|, 0);
    }
    if key in Keys(pairs) {
      var k :| 0 <= k < |pairs| && Keys(pairs)[k] == key;
      AssignedAt(turns, |paths|, k);
      assert turns[k] == VehicleTurn(data, paths, k);
    }
    forall k | 0 <= k < |paths| && Get(data.vehicleIds, k).Some?
                 && key == Str(Get(data.vehicleIds, k).value)
      ensures key in Keys(pairs)
    {
      AssignedAt(turns, |paths|, k);
      assert turns[k] == VehicleTurn(data, paths, k);
      assert Keys(pairs)[k] == key;
    }
  }

  /** The entry stored under a vehicle's key is that vehicle's, when no later
      vehicle has the same key (a later one overwrites it). */
  lemma RouteOfVehicle(data: RoutingData, paths: seq<seq<int>>, k: nat)
    requires InMatrix(data.durationMatrix, paths) && Extract(data, paths).Ok? && k < |paths|
    requires forall j :: k < j < |paths| ==> VehicleKey(data, j) != VehicleKey(data, k)
    ensures VehicleTurn(data, paths, k).Ok?
    ensures Get(Extract(data, paths).value.routes, VehicleTurn(data, paths, k).value.key)
            == Some(VehicleTurn(data, paths, k).value.entry)
  {
    ExtractResponse(data, paths);
    ExtractSucceeds(data, paths);
    var turns := Turns(data, paths);
    var pairs := RouteAssignments(data, paths);
    AssignedAt(turns, |paths|, k);
    assert turns[k] == VehicleTurn(data, paths, k);
    forall j | k < j < |pairs| ensures pairs[j].0 != pairs[k].0 {
      AssignedAt(turns, |paths|, j);
      assert turns[j] == VehicleTurn(data, paths, j);
      assert VehicleKey(data, j) == Some(pairs[j].0);
    }
    assert VehicleKey(data, k) == Some(pairs[k].0);
    LastPairWins(pairs, k);
  }

  /** `str(vehicle_ids[k])`, or None where the lookup raises KeyError. */
  function VehicleKey(data: RoutingData, k: int): (r: Option<string>)
    ensures r.Some? <==> Get(data.vehicleIds, k).Some?
  {
    match Get(data.vehicleIds, k)
    case None => None
    case Some(id) => Some(Str(id))
  }

  /** The response lists the routes in the order their keys first occur in
      the vehicle loop. */
  lemma RoutesInLoopOrder(data: RoutingData, paths: seq<seq<int>>, a: nat, b: nat)
    requires InMatrix(data.durationMatrix, paths) && Extract(data, paths).Ok?
    requires a < b < |Extract(data, paths).value.routes|
    ensures Succeeded(Turns(data, paths), |paths|)
    ensures var ks := Keys(RouteAssignments(data, paths));
            var routes := Extract(data, paths).value.routes;
            && IndexIn(ks, routes[a].0).Some? && IndexIn(ks, routes[b].0).Some?
            && IndexIn(ks, routes[a].0).value < IndexIn(ks, routes[b].0).value
  {
    ExtractResponse(data, paths);
    FirstInsertionOrder(RouteAssignments(data, paths), a, b);
  }
}
