/**
 * The transport catalogue: stops keyed by name, routes (buses) keyed by
 * name, and a directed table of road distances between stops in metres.
 *
 * A stop is identified by its position in the stop store (the catalogue
 * hands out pointers into a deque that never moves its elements, so a
 * position names a stop exactly as a pointer does). `Db` is the state as a
 * value and the `After*` functions are the state transitions; the class
 * `TransportCatalogue` holds the same state in fields and its methods are
 * proved to perform exactly those transitions.
 */
module Catalogue {
  import opened Wrappers
  import Sorting
  import Strings

  /** 2^64: the range of `size_t`. */
  const SIZE_T: nat := 0x1_0000_0000_0000_0000

  type SizeT = x: nat | x < SIZE_T

  /** Position of a stop in the stop store; stands for a `const Stop*`. */
  type StopId = nat

  /** A stop: its name and its coordinates (latitude, longitude). */
  datatype Stop = Stop(name: string, lat: real, lng: real)

  /**
   * The cached curvature of a route: exactly 1 for a route of 0 or 1
   * stops, otherwise the quotient of the road length by the geographic
   * length, which this model does not compute.
   */
  datatype Curvature = Unit | RoadOverGeo

  /**
   * A stored route: what the caller supplies (name, stop list, circular
   * flag) plus the statistics computed on insertion.
   */
  datatype Route = Route(
    name: string,
    stops: seq<StopId>,
    isCircular: bool,
    uniqueStops: nat,
    roadLength: SizeT,
    curvature: Curvature)

  datatype Db = Db(
    stops: seq<Stop>,
    stopIndex: map<string, StopId>,
    routes: seq<Route>,
    routeIndex: map<string, nat>,
    distances: map<(StopId, StopId), SizeT>)

  /** The outcome of a bus query (`RequestResultType` with its payload). */
  datatype RouteInfo = RouteNotExists | RouteFound(route: Route)

  /** The outcome of a stop query. */
  datatype BusesInfo = StopNotExists | NoBuses | Buses(names: seq<string>)

  /**
   * The invariant the catalogue keeps: each index maps every stored name,
   * and only those, to the position holding it; route stops and distance
   * endpoints are stored stops.
   */
  ghost predicate Valid(db: Db) {
    && (forall n :: n in db.stopIndex ==> db.stopIndex[n] < |db.stops| && db.stops[db.stopIndex[n]].name == n)
    && (forall i :: 0 <= i < |db.stops| ==> db.stops[i].name in db.stopIndex && db.stopIndex[db.stops[i].name] == i)
    && (forall n :: n in db.routeIndex ==> db.routeIndex[n] < |db.routes| && db.routes[db.routeIndex[n]].name == n)
    && (forall k :: 0 <= k < |db.routes| ==> db.routes[k].name in db.routeIndex && db.routeIndex[db.routes[k].name] == k)
    && (forall k :: 0 <= k < |db.routes| ==> StopsKnown(db, db.routes[k].stops))
    && (forall p :: p in db.distances ==> p.0 < |db.stops| && p.1 < |db.stops|)
  }

  predicate StopsKnown(db: Db, ids: seq<StopId>) {
    forall t :: 0 <= t < |ids| ==> ids[t] < |db.stops|
  }

  const Empty: Db := Db([], map[], [], map[], map[])

  lemma {:induction false} EmptyValid()
    ensures Valid(Empty)
  {
  }

  /** `GetStopByName`: the stop of that name, or none (a null pointer). */
  function StopByName(db: Db, name: string): (r: Option<StopId>)
    requires Valid(db)
    ensures r.Some? ==> r.value < |db.stops| && db.stops[r.value].name == name
  {
    if name in db.stopIndex then Some(db.stopIndex[name]) else None
  }

  /** The lookup finds a stop exactly when one of that name is stored; it never fails otherwise. */
  lemma {:induction false} StopByNameSpec(db: Db, name: string)
    requires Valid(db)
    ensures StopByName(db, name).Some? <==> exists i :: 0 <= i < |db.stops| && db.stops[i].name == name
  {
  }

  /** `GetRouteByName`: the position of the route of that name, or none. */
  function RouteByName(db: Db, name: string): (r: Option<nat>)
    requires Valid(db)
    ensures r.Some? ==> r.value < |db.routes| && db.routes[r.value].name == name
  {
    if name in db.routeIndex then Some(db.routeIndex[name]) else None
  }

  lemma {:induction false} RouteByNameSpec(db: Db, name: string)
    requires Valid(db)
    ensures RouteByName(db, name).Some? <==> exists k :: 0 <= k < |db.routes| && db.routes[k].name == name
  {
  }

  /** `AddStop`: store a stop unless one of that name is already stored. */
  function AfterAddStop(db: Db, stop: Stop): (r: Db)
    requires Valid(db)
    ensures Valid(r)
    ensures r.routes == db.routes && r.routeIndex == db.routeIndex && r.distances == db.distances
  {
    if stop.name in db.stopIndex then db
    else db.(stops := db.stops + [stop], stopIndex := db.stopIndex[stop.name := |db.stops|])
  }

  /**
   * A second stop of the same name changes nothing; a new name is appended
   * and found by the lookup, and every other name is looked up as before.
   */
  lemma {:induction false} AddStopSpec(db: Db, stop: Stop)
    requires Valid(db)
    ensures (exists i :: 0 <= i < |db.stops| && db.stops[i].name == stop.name) ==> AfterAddStop(db, stop) == db
    ensures (forall i :: 0 <= i < |db.stops| ==> db.stops[i].name != stop.name) ==>
              var r := AfterAddStop(db, stop);
              && r.stops == db.stops + [stop]
              && StopByName(r, stop.name) == Some(|db.stops|)
              && (forall n :: n != stop.name ==> StopByName(r, n) == StopByName(db, n))
  {
  }

  /**
   * `AddDistance`: record `d` metres from `from` to `to`. A missing
   * endpoint is ignored, and an existing entry is kept (the first write wins).
   */
  function AfterAddDistance(db: Db, from: Option<StopId>, to: Option<StopId>, d: SizeT): (r: Db)
    requires Valid(db)
    requires from.Some? ==> from.value < |db.stops|
    requires to.Some? ==> to.value < |db.stops|
    ensures Valid(r)
    ensures r.stops == db.stops && r.stopIndex == db.stopIndex
    ensures r.routes == db.routes && r.routeIndex == db.routeIndex
  {
    if from.Some? && to.Some? && (from.value, to.value) !in db.distances then
      db.(distances := db.distances[(from.value, to.value) := d])
    else db
  }

  /**
   * The table after `AddDistance`: unchanged for a missing endpoint;
   * otherwise the pair is present, holding its old value if it had one and
   * `d` if not, and no other entry appears, disappears or changes.
   */
  lemma {:induction false} AddDistanceSpec(db: Db, from: Option<StopId>, to: Option<StopId>, d: SizeT)
    requires Valid(db)
    requires from.Some? ==> from.value < |db.stops|
    requires to.Some? ==> to.value < |db.stops|
    ensures from.None? || to.None? ==> AfterAddDistance(db, from, to, d) == db
    ensures from.Some? && to.Some? ==>
              var r := AfterAddDistance(db, from, to, d).distances;
              var p := (from.value, to.value);
              && p in r
              && r[p] == (if p in db.distances then db.distances[p] else d)
              && (forall q :: q != p ==> (q in r <==> q in db.distances))
              && (forall q :: q in db.distances ==> r[q] == db.distances[q])
  {
  }

  /** `GetDistanceDirectly`: the recorded distance, 0 when there is none. */
  function DistanceDirectly(db: Db, a: StopId, b: StopId): (r: SizeT)
    ensures (a, b) in db.distances ==> r == db.distances[(a, b)]
    ensures (a, b) !in db.distances ==> r == 0
  {
    if (a, b) in db.distances then db.distances[(a, b)] else 0
  }

  /**
   * `GetDistance`: the direct distance when it is positive, otherwise the
   * one recorded in the opposite direction (even when that is 0 as well).
   */
  function Distance(db: Db, a: StopId, b: StopId): (r: SizeT)
  {
    if DistanceDirectly(db, a, b) > 0 then DistanceDirectly(db, a, b) else DistanceDirectly(db, b, a)
  }

  /** The distance lookup in terms of the table: forward entry first, then the reverse one. */
  lemma {:induction false} DistanceFallback(db: Db, a: StopId, b: StopId)
    ensures (a, b) in db.distances && db.distances[(a, b)] > 0 ==> Distance(db, a, b) == db.distances[(a, b)]
    ensures !((a, b) in db.distances && db.distances[(a, b)] > 0) ==>
              Distance(db, a, b) == (if (b, a) in db.distances then db.distances[(b, a)] else 0)
  {
  }

  /** Recording one direction is enough for both lookups while the other is absent. */
  lemma {:induction false} DistanceSymmetricFromOneEntry(db: Db, a: StopId, b: StopId)
    requires (a, b) in db.distances && db.distances[(a, b)] > 0 && (b, a) !in db.distances
    ensures Distance(db, a, b) == Distance(db, b, a) == db.distances[(a, b)]
  {
    DistanceFallback(db, a, b);
    DistanceFallback(db, b, a);
  }

  /** Sum of the distances between consecutive stops of `ids`, in unbounded arithmetic. */
  function PathSum(db: Db, ids: seq<StopId>): nat {
    if |ids| < 2 then 0
    else PathSum(db, ids[..|ids| - 1]) + Distance(db, ids[|ids| - 2], ids[|ids| - 1])
  }

  /** The route's road length: the consecutive-distance sum, wrapped to `size_t`. */
  function RoadLength(db: Db, ids: seq<StopId>): SizeT {
    PathSum(db, ids) % SIZE_T
  }

  /** The route record `AddRoute` stores for the given stop list. */
  function NewRoute(db: Db, name: string, ids: seq<StopId>, isCircular: bool): (r: Route)
    ensures r.name == name && r.stops == ids && r.isCircular == isCircular
    ensures r.uniqueStops == |set s: StopId | s in ids|
    ensures |ids| <= 1 ==> r.roadLength == 0 && r.curvature == Unit
    ensures |ids| > 1 ==> r.roadLength == RoadLength(db, ids) && r.curvature == RoadOverGeo
  {
    Route(name, ids, isCircular, |set s: StopId | s in ids|, RoadLength(db, ids), if |ids| > 1 then RoadOverGeo else Unit)
  }

  /** `AddRoute`: store a route unless one of that name is already stored. */
  function AfterAddRoute(db: Db, name: string, ids: seq<StopId>, isCircular: bool): (r: Db)
    requires Valid(db) && StopsKnown(db, ids)
    ensures Valid(r)
    ensures r.stops == db.stops && r.stopIndex == db.stopIndex && r.distances == db.distances
  {
    if name in db.routeIndex then db
    else db.(routes := db.routes + [NewRoute(db, name, ids, isCircular)], routeIndex := db.routeIndex[name := |db.routes|])
  }

  /**
   * A taken name changes nothing; a new one appends the route with its
   * statistics, the lookup finds it, and other names are looked up as before.
   */
  lemma {:induction false} AddRouteSpec(db: Db, name: string, ids: seq<StopId>, isCircular: bool)
    requires Valid(db) && StopsKnown(db, ids)
    ensures (exists k :: 0 <= k < |db.routes| && db.routes[k].name == name) ==> AfterAddRoute(db, name, ids, isCircular) == db
    ensures (forall k :: 0 <= k < |db.routes| ==> db.routes[k].name != name) ==>
              var r := AfterAddRoute(db, name, ids, isCircular);
              && r.routes == db.routes + [NewRoute(db, name, ids, isCircular)]
              && RouteByName(r, name) == Some(|db.routes|)
              && (forall n :: n != name ==> RouteByName(r, n) == RouteByName(db, n))
  {
  }

  /** Whether the route at position `k` lists a stop called `name`. */
  predicate Serves(db: Db, k: nat, name: string)
    requires Valid(db) && k < |db.routes|
  {
    exists t :: 0 <= t < |db.routes[k].stops| && db.stops[db.routes[k].stops[t]].name == name
  }

  /** Names of the routes among the first `n` that list a stop called `name`, in store order. */
  function ServingRoutes(db: Db, n: nat, name: string): (r: seq<string>)
    requires Valid(db) && n <= |db.routes|
    ensures forall x :: x in r <==> exists k :: 0 <= k < n && Serves(db, k, name) && db.routes[k].name == x
  {
    if n == 0 then []
    else ServingRoutes(db, n - 1, name) + (if Serves(db, n - 1, name) then [db.routes[n - 1].name] else [])
  }

  /** `GetRouteInfo`: the stored route of that name, or `RouteNotExists`. */
  function GetRouteInfo(db: Db, name: string): (r: RouteInfo)
    requires Valid(db)
    ensures r.RouteNotExists? <==> (forall k :: 0 <= k < |db.routes| ==> db.routes[k].name != name)
    ensures r.RouteFound? ==> r.route in db.routes && r.route.name == name
  {
    match RouteByName(db, name)
    case None => RouteNotExists
    case Some(k) => RouteFound(db.routes[k])
  }

  /**
   * The answer of `GetBusesForStop` as a value: the names of the routes
   * serving the stop, sorted.
   */
  function BusesForStop(db: Db, name: string): (r: BusesInfo)
    requires Valid(db)
  {
    if StopByName(db, name).None? then StopNotExists
    else if ServingRoutes(db, |db.routes|, name) == [] then NoBuses
    else Buses(Sorting.Sort(ServingRoutes(db, |db.routes|, name), NameLess()))
  }

  /** Strict lexicographic order on names, as a value for the sort. */
  function NameLess(): (string, string) -> bool {
    (a: string, b: string) => Strings.Less(a, b)
  }

  lemma {:induction false} NameLessOrder()
    ensures Sorting.StrictTotalOrder(NameLess())
  {
    forall a: string ensures !Strings.Less(a, a) { Strings.LessIrreflexive(a); }
    forall a: string, b: string, c: string | Strings.Less(a, b) && Strings.Less(b, c)
      ensures Strings.Less(a, c)
    {
      Strings.LessTransitive(a, b, c);
    }
    forall a: string, b: string | a != b ensures Strings.Less(a, b) || Strings.Less(b, a) {
      Strings.LessTotal(a, b);
    }
  }

  /** Strict order on stop ids (the order of the pointers they stand for). */
  function IdLess(): (StopId, StopId) -> bool {
    (a: StopId, b: StopId) => a < b
  }

  lemma {:induction false} IdLessOrder()
    ensures Sorting.StrictTotalOrder(IdLess())
  {
  }

  /** Sorting a copy and counting the runs finds the number of distinct stops. */
  lemma {:induction false} UniqueCountIsDistinct(ids: seq<StopId>)
    ensures Sorting.RunCount(Sorting.Sort(ids, IdLess())) == |set s: StopId | s in ids|
  {
    var sorted := Sorting.Sort(ids, IdLess());
    IdLessOrder();
    Sorting.SortSorted(ids, IdLess());
    Sorting.RunCountDistinct(sorted, IdLess());
    assert multiset(sorted) == multiset(ids);
    assert (set s: StopId | s in sorted) == (set s: StopId | s in ids) by {
      forall s ensures s in sorted <==> s in ids {
        assert s in sorted <==> s in multiset(sorted);
        assert s in ids <==> s in multiset(ids);
      }
    }
    assert Sorting.RunCount(sorted) == |set s: StopId | s in sorted|;
  }

  lemma {:induction false} ModAdd(a: nat, b: nat)
    ensures (a % SIZE_T + b) % SIZE_T == (a + b) % SIZE_T
  {
    var q := a / SIZE_T;
    assert a == q * SIZE_T + a % SIZE_T;
    assert a + b == q * SIZE_T + (a % SIZE_T + b);
  }

  /**
   * The catalogue object. Its fields are the stop store with its name
   * index, the route store with its name index, and the distance table.
   */
  class TransportCatalogue {
    var stops: seq<Stop>
    var stopIndex: map<string, StopId>
    var routes: seq<Route>
    var routeIndex: map<string, nat>
    var distances: map<(StopId, StopId), SizeT>

    function State(): Db
      reads this
    {
      Db(stops, stopIndex, routes, routeIndex, distances)
    }

    ghost predicate Inv()
      reads this
    {
      Valid(State())
    }

    constructor()
      ensures State() == Empty && Inv()
    {
      stops, stopIndex, routes, routeIndex, distances := [], map[], [], map[], map[];
    }

    method AddStop(stop: Stop)
      requires Inv()
      modifies this
      ensures Inv()
      ensures State() == AfterAddStop(old(State()), stop)
    {
      if stop.name !in stopIndex {
        stopIndex := stopIndex[stop.name := |stops|];
        stops := stops + [stop];
      }
    }

    method AddDistance(from: Option<StopId>, to: Option<StopId>, d: SizeT)
      requires Inv()
      requires from.Some? ==> from.value < |stops|
      requires to.Some? ==> to.value < |stops|
      modifies this
      ensures Inv()
      ensures State() == AfterAddDistance(old(State()), from, to, d)
    {
      if from.Some? && to.Some? {
        if (from.value, to.value) !in distances {
          distances := distances[(from.value, to.value) := d];
        }
      }
    }

    /**
     * `AddRoute`: unless the name is taken, store the route with its
     * distinct-stop count (sort a copy, count the runs) and its road
     * length (summed pair by pair in `size_t`).
     */
    method AddRoute(name: string, ids: seq<StopId>, isCircular: bool)
      requires Inv() && StopsKnown(State(), ids)
      modifies this
      ensures State() == AfterAddRoute(old(State()), name, ids, isCircular)
      ensures Inv()
    {
      if name !in routeIndex {
        var sorted := Sorting.Sort(ids, IdLess());
        var unique := Sorting.RunCount(sorted);
        UniqueCountIsDistinct(ids);
        var length: SizeT := 0;
        var curvature := Unit;
        if |ids| > 1 {
          length := SumRoadLength(ids);
          curvature := RoadOverGeo;
        }
        var route := Route(name, ids, isCircular, unique, length, curvature);
        assert route == NewRoute(State(), name, ids, isCircular);
        routeIndex := routeIndex[name := |routes|];
        routes := routes + [route];
      }
    }

    /** The length loop of `AddRoute`: add `GetDistance` of each consecutive pair. */
    method SumRoadLength(ids: seq<StopId>) returns (length: SizeT)
      ensures length == RoadLength(State(), ids)
    {
      length := 0;
      if |ids| < 2 {
        return;
      }
      var i := 0;
      while i < |ids| - 1
        invariant 0 <= i <= |ids| - 1
        invariant length == PathSum(State(), ids[..i + 1]) % SIZE_T
      {
        var d := Distance(State(), ids[i], ids[i + 1]);
        assert ids[..i + 2][..i + 1] == ids[..i + 1];
        ModAdd(PathSum(State(), ids[..i + 1]), d);
        length := (length + d) % SIZE_T;
        i := i + 1;
      }
      assert ids[..i + 1] == ids;
    }

    /**
     * `GetBusesForStop`: for a stored stop, the names of all routes that
     * list it, sorted ascending; `NoBuses` when there are none.
     */
    method GetBusesForStop(name: string) returns (r: BusesInfo)
      requires Inv()
      ensures r.StopNotExists? <==> StopByName(State(), name).None?
      ensures r.NoBuses? <==> StopByName(State(), name).Some? && ServingRoutes(State(), |routes|, name) == []
      ensures r.Buses? ==>
                && Sorting.SortedBy(r.names, NameLess())
                && multiset(r.names) == multiset(ServingRoutes(State(), |routes|, name))
                && r.names != []
      ensures r == BusesForStop(State(), name)
    {
      if name !in stopIndex {
        return StopNotExists;
      }
      var found: seq<string> := [];
      var k := 0;
      while k < |routes|
        invariant 0 <= k <= |routes|
        invariant found == ServingRoutes(State(), k, name)
      {
        var t := 0;
        var hit := false;
        while t < |routes[k].stops| && !hit
          invariant 0 <= t <= |routes[k].stops|
          invariant hit <==> Serves(State(), k, name) && t > 0 && stops[routes[k].stops[t - 1]].name == name
          invariant !hit ==> forall u :: 0 <= u < t ==> stops[routes[k].stops[u]].name != name
        {
          hit := stops[routes[k].stops[t]].name == name;
          t := t + 1;
        }
        if hit {
          found := found + [routes[k].name];
        }
        k := k + 1;
      }
      if found == [] {
        return NoBuses;
      }
      var sorted := Sorting.Sort(found, NameLess());
      NameLessOrder();
      Sorting.SortSorted(found, NameLess());
      return Buses(sorted);
    }
  }
}
