/** The request side of the service (app/solver/cvrp.py): the vehicles and
    jobs dicts keyed by id, the duration matrix with its extra sink, the
    per-vehicle data, the demand vector and the reverse id maps that
    `solve_vehicle_routing_problem` hands to `solve`. */
module Cvrp {
  import opened Python
  import opened PyDict
  import OrTools

  /** A vehicle of the request. */
  datatype Vehicle = Vehicle(id: Id, startIndex: int, capacity: seq<int>)

  /** A job of the request. */
  datatype Job = Job(id: Id, locationIndex: int, delivery: seq<int>)

  /** The request: its vehicles and jobs in list order, and the n×n matrix. */
  datatype Request = Request(vehicles: seq<Vehicle>, jobs: seq<Job>, matrix: seq<seq<int>>)

  // The duration matrix

  /** `[0 for _ in range(n)]` */
  function Zeros(n: nat): (r: seq<int>)
    ensures |r| == n && forall i :: 0 <= i < n ==> r[i] == 0
  {
    seq(n, _ => 0)
  }

  /** The matrix with a 0 appended to every row, then a row of zeros one
      longer than the number of rows. */
  function Augmented(m: seq<seq<int>>): (r: seq<seq<int>>)
  {
    seq(|m|, i requires 0 <= i < |m| => m[i] + [0]) + [Zeros(|m| + 1)]
  }

  /** `create_duration_matrix`: works on a copy of the caller's matrix (a
      sequence is a value, so the caller's matrix cannot change), appends 0
      to each row, then appends the zero row of the sink. */
  method CreateDurationMatrix(matrix: seq<seq<int>>) returns (dm: seq<seq<int>>)
    ensures dm == Augmented(matrix)
  {
    dm := matrix;
    var n := |dm|;
    for i := 0 to n
      invariant |dm| == n
      invariant forall r :: 0 <= r < i ==> dm[r] == matrix[r] + [0]
      invariant forall r :: i <= r < n ==> dm[r] == matrix[r]
    {
      dm := dm[i := dm[i] + [0]];
    }
    dm := dm + [Zeros(n + 1)];
  }

  /** For a square n×n matrix, the result is (n+1)×(n+1), keeps every
      original entry, and its new last row and last column are zero. */
  lemma AugmentedMatrix(m: seq<seq<int>>)
    requires OrTools.IsSquare(m)
    ensures |Augmented(m)| == |m| + 1 && OrTools.IsSquare(Augmented(m))
    ensures forall i, j :: 0 <= i < |m| && 0 <= j < |m| ==> Augmented(m)[i][j] == m[i][j]
    ensures forall i :: 0 <= i <= |m| ==> Augmented(m)[i][|m|] == 0 && Augmented(m)[|m|][i] == 0
  {
    var a := Augmented(m);
    forall i | 0 <= i < |m| ensures a[i] == m[i] + [0] {
    }
  }

  /** `duration_callback` over the augmented matrix: the request's duration
      between two locations, and 0 on every arc into or out of the sink. */
  lemma SinkArcsAreFree(m: seq<seq<int>>, i: nat, j: nat)
    requires OrTools.IsSquare(m) && i <= |m| && j <= |m|
    ensures AugmentedMatrixBounds(m, i, j)
    ensures OrTools.DurationCallback(Augmented(m), i, j)
            == if i < |m| && j < |m| then m[i][j] else 0
  {
    AugmentedMatrix(m);
  }

  /** Row `i` of the augmented matrix has a column `j`. */
  ghost predicate AugmentedMatrixBounds(m: seq<seq<int>>, i: nat, j: nat)
  {
    i < |Augmented(m)| && j < |Augmented(m)[i]|
  }

  // The vehicle data

  /** The vehicle part of `data`. */
  datatype VehicleData = VehicleData(
    starts: seq<int>, numVehicles: nat, ends: seq<int>, vehicleCapacities: seq<int>)

  /** `create_vehicle_data`, or the IndexError of a vehicle whose capacity
      list is empty. */
  function CreateVehicleData(vs: seq<Vehicle>, dm: seq<seq<int>>): (r: Result<VehicleData>)
    ensures r.Ok? <==> forall k :: 0 <= k < |vs| ==> |vs[k].capacity| > 0
    ensures r.Err? ==> r.error == IndexError
    ensures r.Ok? ==>
              && r.value.numVehicles == |vs|
              && |r.value.starts| == |r.value.ends| == |r.value.vehicleCapacities| == |vs|
              && forall k :: 0 <= k < |vs| ==>
                   && r.value.starts[k] == vs[k].startIndex
                   && r.value.ends[k] == |dm| - 1
                   && r.value.vehicleCapacities[k] == vs[k].capacity[0]
  {
    if exists k :: 0 <= k < |vs| && |vs[k].capacity| == 0 then Err(IndexError)
    else
      Ok(VehicleData(
        seq(|vs|, k requires 0 <= k < |vs| => vs[k].startIndex),
        |vs|,
        seq(|vs|, _ => |dm| - 1),
        seq(|vs|, k requires 0 <= k < |vs| && |vs[k].capacity| > 0 => vs[k].capacity[0])))
  }

  // The demand vector

  /** Every job has a delivery amount. */
  ghost predicate Deliverable(js: seq<Job>)
  {
    forall j :: 0 <= j < |js| ==> |js[j].delivery| > 0
  }

  /** The demand left at position `i` of a length-`n` list once the jobs have
      written in turn: the delivery of the last job whose location index
      addresses `i`, and 0 where none does. */
  function DemandAt(js: seq<Job>, n: nat, i: nat): (r: int)
    requires Deliverable(js)
  {
    if js == [] then 0
    else
      var last := js[|js| - 1];
      if Slot(last.locationIndex, n) == Some(i) then last.delivery[0]
      else DemandAt(js[..|js| - 1], n, i)
  }

  /** What `get_demands` returns: IndexError when a vehicle's start index or a
      job's location index is outside the list, or a job has no delivery;
      otherwise every position holds its `DemandAt`. */
  ghost function Demands(vs: seq<Vehicle>, js: seq<Job>, n: nat): (r: Result<seq<int>>)
  {
    if exists k :: 0 <= k < |vs| && Slot(vs[k].startIndex, n).None? then Err(IndexError)
    else if exists j :: 0 <= j < |js| && (|js[j].delivery| == 0 || Slot(js[j].locationIndex, n).None?)
    then Err(IndexError)
    else Ok(seq(n, i requires 0 <= i < n => DemandAt(js, n, i)))
  }

  /** `get_demands`: a list of `n` zeros, a 0 written at every vehicle's
      start index, then every job's delivery written at its location index. */
  method GetDemands(vs: seq<Vehicle>, js: seq<Job>, n: nat) returns (r: Result<seq<int>>)
    ensures r == Demands(vs, js, n)
  {
    var demands := new int[n](_ => 0);
    for k := 0 to |vs|
      invariant forall i :: 0 <= i < n ==> demands[i] == 0
      invariant forall k' :: 0 <= k' < k ==> Slot(vs[k'].startIndex, n).Some?
    {
      var slot := Slot(vs[k].startIndex, n);
      if slot.None? {
        return Err(IndexError);
      }
      demands[slot.value] := 0;
    }
    for j := 0 to |js|
      invariant Deliverable(js[..j])
      invariant forall j' :: 0 <= j' < j ==> Slot(js[j'].locationIndex, n).Some?
      invariant forall i :: 0 <= i < n ==> demands[i] == DemandAt(js[..j], n, i)
    {
      if |js[j].delivery| == 0 {
        return Err(IndexError);
      }
      var slot := Slot(js[j].locationIndex, n);
      if slot.None? {
        return Err(IndexError);
      }
      demands[slot.value] := js[j].delivery[0];
      assert js[..j + 1][..j] == js[..j];
    }
    assert js[..|js|] == js;
    DemandsOk(vs, js, n);
    assert demands[..] == seq(n, i requires 0 <= i < n => DemandAt(js, n, i));
    return Ok(demands[..]);
  }

  /** With every index in range and every delivery present, `Demands`
      succeeds with each position's `DemandAt`. */
  lemma DemandsOk(vs: seq<Vehicle>, js: seq<Job>, n: nat)
    requires forall k :: 0 <= k < |vs| ==> Slot(vs[k].startIndex, n).Some?
    requires Deliverable(js) && forall j :: 0 <= j < |js| ==> Slot(js[j].locationIndex, n).Some?
    ensures Demands(vs, js, n) == Ok(seq(n, i requires 0 <= i < n => DemandAt(js, n, i)))
  {
  }

  /** The job written last at a position sets its demand. */
  lemma {:induction false} LastJobWins(js: seq<Job>, n: nat, j: nat, i: nat)
    requires Deliverable(js) && j < |js| && Slot(js[j].locationIndex, n) == Some(i)
    requires forall j' :: j < j' < |js| ==> Slot(js[j'].locationIndex, n) != Some(i)
    ensures DemandAt(js, n, i) == js[j].delivery[0]
  {
    if j < |js| - 1 {
      LastJobWins(js[..|js| - 1], n, j, i);
    }
  }

  /** A position no job addresses has demand 0, whether or not a vehicle
      starts there. */
  lemma {:induction false} NoJobNoDemand(js: seq<Job>, n: nat, i: nat)
    requires Deliverable(js)
    requires forall j :: 0 <= j < |js| ==> Slot(js[j].locationIndex, n) != Some(i)
    ensures DemandAt(js, n, i) == 0
  {
    if js != [] {
      NoJobNoDemand(js[..|js| - 1], n, i);
    }
  }

  /** The sink, the last position, has demand 0 unless a job's location index
      is `n - 1` or, counting from the end, `-1`. */
  lemma SinkDemandZero(js: seq<Job>, n: nat)
    requires n > 0 && Deliverable(js)
    requires forall j :: 0 <= j < |js| ==> js[j].locationIndex != n - 1 && js[j].locationIndex != -1
    ensures DemandAt(js, n, n - 1) == 0
  {
    forall j | 0 <= j < |js| ensures Slot(js[j].locationIndex, n) != Some(n - 1) {
      LastSlot(js[j].locationIndex, n);
    }
    NoJobNoDemand(js, n, n - 1);
  }

  /** The job loop runs after the vehicle loop: a job at a vehicle's start
      index sets that position's demand. */
  lemma JobOverridesVehicleStart(vs: seq<Vehicle>, js: seq<Job>, n: nat, k: nat, j: nat)
    requires Demands(vs, js, n).Ok? && k < |vs| && j < |js|
    requires Slot(js[j].locationIndex, n) == Slot(vs[k].startIndex, n)
    requires forall j' :: j < j' < |js| ==> Slot(js[j'].locationIndex, n) != Slot(js[j].locationIndex, n)
    ensures Slot(vs[k].startIndex, n).Some? && Slot(vs[k].startIndex, n).value < |Demands(vs, js, n).value|
    ensures Demands(vs, js, n).value[Slot(vs[k].startIndex, n).value] == js[j].delivery[0]
  {
    var i := Slot(vs[k].startIndex, n).value;
    LastJobWins(js, n, j, i);
  }

  // The dicts built from the request

  /** `(v['id'], v)` for each vehicle in list order. */
  function VehicleEntries(vs: seq<Vehicle>): seq<(Id, Vehicle)>
  {
    seq(|vs|, i requires 0 <= i < |vs| => (vs[i].id, vs[i]))
  }

  /** `(j['id'], j)` for each job in list order. */
  function JobEntries(js: seq<Job>): seq<(Id, Job)>
  {
    seq(|js|, i requires 0 <= i < |js| => (js[i].id, js[i]))
  }

  /** `(v['start_index'], v['id'])` for each vehicle in iteration order. */
  function StartEntries(vs: seq<Vehicle>): seq<(int, Id)>
  {
    seq(|vs|, i requires 0 <= i < |vs| => (vs[i].startIndex, vs[i].id))
  }

  /** `(j['location_index'], j['id'])` for each job in iteration order. */
  function LocationEntries(js: seq<Job>): seq<(int, Id)>
  {
    seq(|js|, i requires 0 <= i < |js| => (js[i].locationIndex, js[i].id))
  }

  /** `vehicles.values()`: `{v['id']: v for v in input_json['vehicles']}`. */
  function VehicleList(req: Request): seq<Vehicle>
  {
    Values(FromPairs(VehicleEntries(req.vehicles)))
  }

  /** `jobs.values()`: `{j['id']: j for j in input_json['jobs']}`. */
  function JobList(req: Request): seq<Job>
  {
    Values(FromPairs(JobEntries(req.jobs)))
  }

  /** `{v['start_index']: v['id'] for v in vehicles.values()}` */
  function VehicleIds(vs: seq<Vehicle>): Dict<int, Id>
  {
    FromPairs(StartEntries(vs))
  }

  /** `{j['location_index']: j['id'] for j in jobs.values()}` */
  function JobIds(js: seq<Job>): Dict<int, Id>
  {
    FromPairs(LocationEntries(js))
  }

  /** Vehicles with the same id collapse into one: each vehicle of
      `vehicles.values()` is the last one of the request with its id, and
      they come in the order their ids first occur. */
  lemma DuplicateVehicleIdsCollapse(req: Request, a: nat)
    requires a < |VehicleList(req)|
    ensures var ps := VehicleEntries(req.vehicles);
            var v := VehicleList(req)[a];
            && LastIndex(ps, v.id).Some?
            && v == req.vehicles[LastIndex(ps, v.id).value]
  {
    var ps := VehicleEntries(req.vehicles);
    var d := FromPairs(ps);
    assert VehicleList(req)[a] == d[a].1;
    ItemIsLastPair(ps, a);
  }

  /** Jobs with the same id collapse into one: each job of `jobs.values()`
      is the last one of the request with its id. */
  lemma DuplicateJobIdsCollapse(req: Request, a: nat)
    requires a < |JobList(req)|
    ensures var ps := JobEntries(req.jobs);
            var j := JobList(req)[a];
            && LastIndex(ps, j.id).Some?
            && j == req.jobs[LastIndex(ps, j.id).value]
  {
    var ps := JobEntries(req.jobs);
    var d := FromPairs(ps);
    assert JobList(req)[a] == d[a].1;
    ItemIsLastPair(ps, a);
  }

  /** With distinct vehicle ids, `vehicles.values()` is the request's
      vehicle list itself, in order. */
  lemma DistinctVehicleIdsKept(req: Request)
    requires forall a, b :: 0 <= a < b < |req.vehicles| ==> req.vehicles[a].id != req.vehicles[b].id
    ensures VehicleList(req) == req.vehicles
  {
    var ps := VehicleEntries(req.vehicles);
    assert UniqueKeys(ps);
    FromPairsOfUniqueKeys(ps);
    assert Values(ps) == req.vehicles;
  }

  /** With distinct job ids, `jobs.values()` is the request's job list
      itself, in order. */
  lemma DistinctJobIdsKept(req: Request)
    requires forall a, b :: 0 <= a < b < |req.jobs| ==> req.jobs[a].id != req.jobs[b].id
    ensures JobList(req) == req.jobs
  {
    var ps := JobEntries(req.jobs);
    assert UniqueKeys(ps);
    FromPairsOfUniqueKeys(ps);
    assert Values(ps) == req.jobs;
  }

  /** `vehicles.values()` keeps the order in which ids first occur. */
  lemma VehicleListOrder(req: Request, a: nat, b: nat)
    requires a < b < |VehicleList(req)|
    ensures var ks := Keys(VehicleEntries(req.vehicles));
            && IndexIn(ks, VehicleList(req)[a].id).Some?
            && IndexIn(ks, VehicleList(req)[b].id).Some?
            && IndexIn(ks, VehicleList(req)[a].id).value < IndexIn(ks, VehicleList(req)[b].id).value
  {
    var ps := VehicleEntries(req.vehicles);
    var d := FromPairs(ps);
    assert VehicleList(req)[a] == d[a].1 && VehicleList(req)[b] == d[b].1;
    ItemIsLastPair(ps, a);
    ItemIsLastPair(ps, b);
    FirstInsertionOrder(ps, a, b);
  }

  /** `vehicle_ids[s]` is the id of the last vehicle starting at `s`. */
  lemma LastVehicleAtStart(vs: seq<Vehicle>, k: nat)
    requires k < |vs| && forall j :: k < j < |vs| ==> vs[j].startIndex != vs[k].startIndex
    ensures Get(VehicleIds(vs), vs[k].startIndex) == Some(vs[k].id)
  {
    LastPairWins(StartEntries(vs), k);
  }

  /** `vehicle_ids[s]` raises KeyError when no vehicle starts at `s`. */
  lemma NoVehicleAtIndex(vs: seq<Vehicle>, s: int)
    requires forall k :: 0 <= k < |vs| ==> vs[k].startIndex != s
    ensures Get(VehicleIds(vs), s).None?
  {
    var ps := StartEntries(vs);
    FromPairsKeys(ps, s);
    GetSome(FromPairs(ps), s);
    assert forall k :: 0 <= k < |ps| ==> Keys(ps)[k] == vs[k].startIndex;
  }

  /** `job_ids[l]` is the id of the last job at location `l`. */
  lemma LastJobAtLocation(js: seq<Job>, j: nat)
    requires j < |js| && forall j' :: j < j' < |js| ==> js[j'].locationIndex != js[j].locationIndex
    ensures Get(JobIds(js), js[j].locationIndex) == Some(js[j].id)
  {
    LastPairWins(LocationEntries(js), j);
  }

  /** `job_ids[l]` raises KeyError when no job is at location `l`. */
  lemma NoJobAtLocation(js: seq<Job>, l: int)
    requires forall j :: 0 <= j < |js| ==> js[j].locationIndex != l
    ensures Get(JobIds(js), l).None?
  {
    var ps := LocationEntries(js);
    FromPairsKeys(ps, l);
    GetSome(FromPairs(ps), l);
    assert forall j :: 0 <= j < |ps| ==> Keys(ps)[j] == js[j].locationIndex;
  }

  /** When every vehicle starts at the node equal to its position, looking
      `vehicle_ids` up by loop index finds that vehicle's id. */
  lemma AlignedLoopIndex(vs: seq<Vehicle>, k: nat)
    requires k < |vs| && forall j :: 0 <= j < |vs| ==> vs[j].startIndex == j
    ensures Get(VehicleIds(vs), k) == Some(vs[k].id)
  {
    LastVehicleAtStart(vs, k);
  }

  // The routing data

  /** The `data` dict `solve_vehicle_routing_problem` builds, or the
      IndexError raised while building it. */
  ghost function Normalized(req: Request): (r: Result<OrTools.RoutingData>)
  {
    var dm := Augmented(req.matrix);
    var vs := VehicleList(req);
    var js := JobList(req);
    match CreateVehicleData(vs, dm)
    case Err(e) => Err(e)
    case Ok(vd) =>
      match Demands(vs, js, |dm|)
      case Err(e) => Err(e)
      case Ok(demands) =>
        Ok(OrTools.RoutingData(dm, vd.numVehicles, vd.starts, vd.ends, demands,
                               vd.vehicleCapacities, VehicleIds(vs), JobIds(js)))
  }

  /** The routing data has one vehicle per distinct vehicle id, every vehicle
      ending at the sink `n`, a demand per node, and the augmented matrix. */
  lemma NormalizedShape(req: Request)
    requires Normalized(req).Ok?
    ensures var data := Normalized(req).value;
            && data.durationMatrix == Augmented(req.matrix)
            && data.numVehicles == |VehicleList(req)| == |data.starts| == |data.ends|
            && |data.demands| == |req.matrix| + 1
            && (forall k :: 0 <= k < data.numVehicles ==>
                  data.ends[k] == OrTools.Sink(data) == |req.matrix|)
  {
  }

  /** `demand_callback` reads the demand vector: a node's demand is the
      delivery of the last job addressing it, 0 where none does. */
  lemma DemandCallbackReadsJobs(req: Request, i: nat)
    requires Normalized(req).Ok? && i <= |req.matrix|
    ensures Deliverable(JobList(req))
    ensures i < |Normalized(req).value.demands|
    ensures OrTools.DemandCallback(Normalized(req).value.demands, i)
            == DemandAt(JobList(req), |req.matrix| + 1, i)
  {
  }

  /** A loop index at which no vehicle starts makes the whole request raise
      KeyError once the solver has routed it. */
  lemma MisalignedLoopIndexFails(req: Request, paths: seq<seq<int>>, k: nat)
    requires Normalized(req).Ok?
    requires OrTools.InMatrix(Normalized(req).value.durationMatrix, paths)
    requires k < |paths| && forall v :: v in VehicleList(req) ==> v.startIndex != k
    ensures OrTools.Extract(Normalized(req).value, paths) == Err(KeyError)
  {
    var vs := VehicleList(req);
    NoVehicleAtIndex(vs, k);
    OrTools.UnknownLoopIndexFails(Normalized(req).value, paths, k);
  }

  /** When the last vehicle starting at node `k` is not vehicle `k`, the id
      lookup finds that vehicle's id, but vehicle `k`'s own start is not
      skipped: with no job there, the whole request raises KeyError. */
  lemma BorrowedIdStartFails(req: Request, next: seq<seq<int>>, paths: seq<seq<int>>, k: nat, j: nat)
    requires Normalized(req).Ok?
    requires OrTools.Routed(Normalized(req).value, next, paths) && k < |paths|
    requires j < |VehicleList(req)| && VehicleList(req)[j].startIndex == k
    requires forall j' :: j < j' < |VehicleList(req)| ==> VehicleList(req)[j'].startIndex != k
    requires k < |VehicleList(req)| && VehicleList(req)[k].startIndex != k
    requires forall i :: 0 <= i < |JobList(req)| ==> JobList(req)[i].locationIndex != VehicleList(req)[k].startIndex
    ensures Get(Normalized(req).value.vehicleIds, k) == Some(VehicleList(req)[j].id)
    ensures OrTools.Extract(Normalized(req).value, paths) == Err(KeyError)
  {
    var data := Normalized(req).value;
    LastVehicleAtStart(VehicleList(req), j);
    NoJobAtLocation(JobList(req), VehicleList(req)[k].startIndex);
    assert data.starts[k] == VehicleList(req)[k].startIndex;
    OrTools.StartNotSkippedFails(data, next, paths, k);
  }

  /** Vehicle ids are looked up by loop index: vehicle `k`'s route is filed
      under the id of the last vehicle that starts at node `k`, which need
      not be vehicle `k`. */
  lemma RouteFiledUnderStartingVehicle(req: Request, paths: seq<seq<int>>, k: nat, j: nat)
    requires Normalized(req).Ok?
    requires OrTools.InMatrix(Normalized(req).value.durationMatrix, paths) && k < |paths|
    requires j < |VehicleList(req)| && VehicleList(req)[j].startIndex == k
    requires forall j' :: j < j' < |VehicleList(req)| ==> VehicleList(req)[j'].startIndex != k
    requires OrTools.VehicleTurn(Normalized(req).value, paths, k).Ok?
    ensures var data := Normalized(req).value;
            && OrTools.VehicleTurn(data, paths, k).value.key == Str(VehicleList(req)[j].id)
            && OrTools.RouteOf(data.durationMatrix, paths[k], k, data.jobIds).Ok?
            && OrTools.VehicleTurn(data, paths, k).value.entry
               == OrTools.RouteOf(data.durationMatrix, paths[k], k, data.jobIds).value.0
  {
    LastVehicleAtStart(VehicleList(req), j);
  }

  /** `solve_vehicle_routing_problem`: builds the routing data and hands it
      to `solve`; the solver's assignment, if it found one, is the input
      `solution` with `paths` the vehicles' walks. */
  method SolveVehicleRoutingProblem(req: Request, solution: Option<seq<seq<int>>>,
                                    ghost paths: seq<seq<int>>)
    returns (r: Result<Option<OrTools.Response>>)
    requires Normalized(req).Ok? && solution.Some? ==>
               OrTools.Routed(Normalized(req).value, solution.value, paths)
    ensures Normalized(req).Err? ==> r == Err(IndexError)
    ensures Normalized(req).Ok? && solution.None? ==> r == Ok(None)
    ensures Normalized(req).Ok? && solution.Some? ==>
              (r.Ok? <==> OrTools.Extract(Normalized(req).value, paths).Ok?)
              && (r.Ok? ==> r.value == Some(OrTools.Extract(Normalized(req).value, paths).value))
    ensures Normalized(req).Ok? && solution.Some? && r.Err? ==>
              OrTools.Extract(Normalized(req).value, paths) == Err(r.error)
  {
    var vehicles := VehicleList(req);
    var jobs := JobList(req);
    var dm := CreateDurationMatrix(req.matrix);
    var vehicleData := CreateVehicleData(vehicles, dm);
    if vehicleData.Err? {
      return Err(IndexError);
    }
    var demands := GetDemands(vehicles, jobs, |dm|);
    if demands.Err? {
      return Err(IndexError);
    }
    var vd := vehicleData.value;
    var data := OrTools.RoutingData(dm, vd.numVehicles, vd.starts, vd.ends, demands.value,
                                    vd.vehicleCapacities, VehicleIds(vehicles), JobIds(jobs));
    assert data == Normalized(req).value;
    r := OrTools.Solve(data, solution, paths);
  }
}
