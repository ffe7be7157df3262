/**
 * The transport router: compiles the catalogue into a directed weighted
 * graph and turns a path through it into an itinerary.
 *
 * Every stop gets two vertices, a "wait" vertex and a "travel" vertex,
 * joined by a WAIT edge whose weight is the waiting time. Every route
 * gets a TRAVEL edge from the travel vertex of each of its stops to the
 * wait vertex of every later stop on the route, weighted by the riding
 * time. The shortest-path search itself is not part of this model: it is
 * a parameter, constrained only to answer with a path of the graph.
 */
module Router {
  import opened Wrappers
  import opened Catalogue
  import opened Seqs

  /** Bus velocity in km/h and waiting time in minutes. */
  datatype Settings = Settings(busVelocity: int, busWaitTime: int)

  const DefaultSettings: Settings := Settings(40, 6)

  datatype EdgeType = Wait | Travel

  datatype Edge = Edge(from: nat, to: nat, weight: real, name: string, kind: EdgeType, spanCount: int)

  /** One leg of an itinerary. */
  datatype RouteItem = RouteItem(name: string, spanCount: int, time: real, kind: EdgeType)

  /** The itinerary: legs, their total time, and whether a path was found. */
  datatype RouteData = RouteData(totalTime: real, items: seq<RouteItem>, founded: bool)

  /** The default itinerary: no path. */
  const NotFound: RouteData := RouteData(0.0, [], false)

  /** `std::out_of_range`, thrown by `unordered_map::at` for a name that is not a stop. */
  datatype RouteError = UnknownStop

  function WaitVertex(i: nat): nat { 2 * i }
  function TravelVertex(i: nat): nat { 2 * i + 1 }

  /** A path from `u` to `v`: consecutive edges of `g` that meet end to start. */
  ghost predicate ValidPath(g: seq<Edge>, u: nat, v: nat, p: seq<nat>) {
    && (forall i :: 0 <= i < |p| ==> p[i] < |g|)
    && (p == [] ==> u == v)
    && (p != [] ==> g[p[0]].from == u && g[p[|p| - 1]].to == v)
    && (forall i :: 0 <= i < |p| - 1 ==> g[p[i]].to == g[p[i + 1]].from)
  }

  ghost predicate ValidAnswer(g: seq<Edge>, u: nat, v: nat, r: Option<seq<nat>>) {
    r.Some? ==> ValidPath(g, u, v, r.value)
  }

  /**
   * The shortest-path engine, given the vertex count, the edges and the
   * two end vertices: it answers with no path or with a path of the graph.
   */
  type PathSearch = f: (nat, seq<Edge>, nat, nat) -> Option<seq<nat>>
    | forall n, g, u, v :: ValidAnswer(g, u, v, f(n, g, u, v))
    witness (n: nat, g: seq<Edge>, u: nat, v: nat) => None

  // ---------------------------------------------------------------------
  // The graph, as a function of the catalogue and the settings.

  /** Vertex map built by inserting `name -> vertex` for each stop in turn (the first entry of a name stays). */
  function VertexMap(stops: seq<Stop>, offset: nat): map<string, nat> {
    if stops == [] then map[]
    else
      var m := VertexMap(stops[..|stops| - 1], offset);
      var name := stops[|stops| - 1].name;
      if name in m then m else m[name := 2 * (|stops| - 1) + offset]
  }

  ghost predicate DistinctNames(stops: seq<Stop>) {
    forall i, j :: 0 <= i < j < |stops| ==> stops[i].name != stops[j].name
  }

  lemma {:induction false} ValidDistinct(db: Db)
    requires Valid(db)
    ensures DistinctNames(db.stops)
  {
  }

  /** With distinct names, stop `i` is mapped to vertex `2i + offset`, and only stop names are keys. */
  lemma {:induction false} VertexMapAt(stops: seq<Stop>, offset: nat)
    requires DistinctNames(stops)
    ensures forall i :: 0 <= i < |stops| ==> stops[i].name in VertexMap(stops, offset) && VertexMap(stops, offset)[stops[i].name] == 2 * i + offset
    ensures forall n :: n in VertexMap(stops, offset) <==> exists i :: 0 <= i < |stops| && stops[i].name == n
    decreases |stops|
  {
    if stops != [] {
      var init := stops[..|stops| - 1];
      VertexMapAt(init, offset);
      forall n | n in VertexMap(stops, offset)
        ensures exists i :: 0 <= i < |stops| && stops[i].name == n
      {
        if n != stops[|stops| - 1].name {
          var i :| 0 <= i < |init| && init[i].name == n;
          assert stops[i].name == n;
        }
      }
    }
  }

  /** A stop whose name no earlier stop has is not yet in the map of the earlier stops. */
  lemma {:induction false} NewName(stops: seq<Stop>, i: nat, offset: nat)
    requires DistinctNames(stops) && i < |stops|
    ensures stops[i].name !in VertexMap(stops[..i], offset)
  {
    VertexMapAt(stops[..i], offset);
    forall j | 0 <= j < i
      ensures stops[..i][j].name != stops[i].name
    {
    }
  }

  /** The vertex of one stop, with distinct names. */
  lemma {:induction false} VertexOf(stops: seq<Stop>, x: nat, offset: nat)
    requires DistinctNames(stops) && x < |stops|
    ensures stops[x].name in VertexMap(stops, offset) && VertexMap(stops, offset)[stops[x].name] == 2 * x + offset
  {
    VertexMapAt(stops, offset);
  }

  /** One more stop adds its WAIT edge and its two vertices at the end. */
  lemma {:induction false} WaitStep(stops: seq<Stop>, s: Settings, i: nat)
    requires DistinctNames(stops) && i < |stops|
    ensures WaitEdges(stops[..i + 1], s) == WaitEdges(stops[..i], s) + [WaitEdge(stops, s, i)]
    ensures VertexMap(stops[..i + 1], 0) == VertexMap(stops[..i], 0)[stops[i].name := 2 * i]
    ensures VertexMap(stops[..i + 1], 1) == VertexMap(stops[..i], 1)[stops[i].name := 2 * i + 1]
  {
    assert stops[..i + 1][..i] == stops[..i];
    NewName(stops, i, 0);
    NewName(stops, i, 1);
    var a, b := WaitEdges(stops[..i + 1], s), WaitEdges(stops[..i], s) + [WaitEdge(stops, s, i)];
    assert |a| == |b|;
    forall t | 0 <= t < |a| ensures a[t] == b[t] {
      assert a[t] == WaitEdge(stops[..i + 1], s, t);
    }
  }

  /** The WAIT edge of stop `i`. */
  function WaitEdge(stops: seq<Stop>, s: Settings, i: nat): Edge
    requires i < |stops|
  {
    Edge(WaitVertex(i), TravelVertex(i), s.busWaitTime as real, stops[i].name, Wait, 0)
  }

  /** The WAIT edges, one per stop, in stop order. */
  function WaitEdges(stops: seq<Stop>, s: Settings): (r: seq<Edge>)
    ensures |r| == |stops|
    ensures forall i :: 0 <= i < |stops| ==> r[i] == WaitEdge(stops, s, i)
  {
    seq(|stops|, i requires 0 <= i < |stops| => WaitEdge(stops, s, i))
  }

  /** Minutes per metre is the inverse of this: metres per minute. */
  function Speed(s: Settings): real {
    s.busVelocity as real * 1000.0 / 60.0
  }

  /** Road distance from position `i` to position `j` of a stop list, pair by pair. */
  function Segment(db: Db, ids: seq<StopId>, i: nat, j: nat): nat
    requires i <= j < |ids|
    decreases j
  {
    if j == i then 0 else Segment(db, ids, i, j - 1) + Distance(db, ids[j - 1], ids[j])
  }

  /** The TRAVEL edge of a route from its `i`-th stop to its `j`-th. */
  function TravelEdge(db: Db, s: Settings, name: string, ids: seq<StopId>, i: nat, j: nat): Edge
    requires i < j < |ids| && s.busVelocity != 0
  {
    Edge(TravelVertex(ids[i]), WaitVertex(ids[j]), Segment(db, ids, i, j) as real / Speed(s), name, Travel, j - i)
  }

  /** TRAVEL edges from position `i` to positions `i+1 .. n-1`, in that order. */
  function RowEdges(db: Db, s: Settings, name: string, ids: seq<StopId>, i: nat, n: nat): seq<Edge>
    requires n <= |ids| && s.busVelocity != 0
    decreases n
  {
    if n <= i + 1 then [] else RowEdges(db, s, name, ids, i, n - 1) + [TravelEdge(db, s, name, ids, i, n - 1)]
  }

  /** TRAVEL edges from positions `0 .. m-1` to every later position. */
  function RouteEdgesUpTo(db: Db, s: Settings, name: string, ids: seq<StopId>, m: nat): seq<Edge>
    requires m <= |ids| && s.busVelocity != 0
  {
    if m == 0 then [] else RouteEdgesUpTo(db, s, name, ids, m - 1) + RowEdges(db, s, name, ids, m - 1, |ids|)
  }

  /** The TRAVEL edges of one route: every position pair `i < j`. */
  function RouteEdges(db: Db, s: Settings, r: Route): seq<Edge>
    requires s.busVelocity != 0
  {
    RouteEdgesUpTo(db, s, r.name, r.stops, if |r.stops| == 0 then 0 else |r.stops| - 1)
  }

  /** The TRAVEL edges of the first `n` routes, route by route. */
  function AllTravelEdges(db: Db, s: Settings, n: nat): seq<Edge>
    requires n <= |db.routes| && s.busVelocity != 0
  {
    if n == 0 then [] else AllTravelEdges(db, s, n - 1) + RouteEdges(db, s, db.routes[n - 1])
  }

  /** The whole graph: all WAIT edges, then all TRAVEL edges. */
  function GraphEdges(db: Db, s: Settings): seq<Edge>
    requires s.busVelocity != 0
  {
    WaitEdges(db.stops, s) + AllTravelEdges(db, s, |db.routes|)
  }

  // ---------------------------------------------------------------------
  // Properties of the graph.

  lemma {:induction false} RowEdgesLength(db: Db, s: Settings, name: string, ids: seq<StopId>, i: nat, n: nat)
    requires n <= |ids| && s.busVelocity != 0
    ensures |RowEdges(db, s, name, ids, i, n)| == if n <= i + 1 then 0 else n - i - 1
    decreases n
  {
    if n > i + 1 {
      RowEdgesLength(db, s, name, ids, i, n - 1);
    }
  }

  lemma {:induction false} RowEdgesShape(db: Db, s: Settings, name: string, ids: seq<StopId>, i: nat, n: nat)
    requires n <= |ids| && s.busVelocity != 0
    ensures |RowEdges(db, s, name, ids, i, n)| == if n <= i + 1 then 0 else n - i - 1
    ensures forall e :: e in RowEdges(db, s, name, ids, i, n) <==>
              exists j :: i < j < n && e == TravelEdge(db, s, name, ids, i, j)
    decreases n
  {
    if n > i + 1 {
      RowEdgesShape(db, s, name, ids, i, n - 1);
    }
  }

  /** Twice the number of TRAVEL edges from the first `m` positions of a `k`-stop route. */
  lemma {:induction false} RouteEdgesCount(db: Db, s: Settings, name: string, ids: seq<StopId>, m: nat)
    requires m < |ids| && s.busVelocity != 0
    ensures 2 * |RouteEdgesUpTo(db, s, name, ids, m)| == m * (2 * |ids| - m - 1)
  {
    if m > 0 {
      var prev, row := RouteEdgesUpTo(db, s, name, ids, m - 1), RowEdges(db, s, name, ids, m - 1, |ids|);
      assert RouteEdgesUpTo(db, s, name, ids, m) == prev + row;
      RouteEdgesCount(db, s, name, ids, m - 1);
      RowEdgesLength(db, s, name, ids, m - 1, |ids|);
      assert |row| == |ids| - m;
      CountStep(|ids|, m);
    }
  }

  /** (m-1)(2k-m) + 2(k-m) = m(2k-m-1). */
  lemma {:induction false} CountStep(k: int, m: int)
    ensures (m - 1) * (2 * k - (m - 1) - 1) + 2 * (k - m) == m * (2 * k - m - 1)
  {
    var w := 2 * k - m;
    assert (m - 1) * w == m * w - w;
    assert m * (w - 1) == m * w - m;
  }

  lemma {:induction false} RouteEdgesMembers(db: Db, s: Settings, name: string, ids: seq<StopId>, m: nat)
    requires m <= |ids| && s.busVelocity != 0
    ensures forall e :: e in RouteEdgesUpTo(db, s, name, ids, m) <==>
              exists i, j :: 0 <= i < m && i < j < |ids| && e == TravelEdge(db, s, name, ids, i, j)
  {
    if m > 0 {
      RouteEdgesMembers(db, s, name, ids, m - 1);
      RowEdgesShape(db, s, name, ids, m - 1, |ids|);
    }
  }

  /**
   * A route of `k >= 1` stops contributes k(k-1)/2 TRAVEL edges: exactly
   * one from position `i` to position `j` for every `i < j`, named after
   * the route and spanning `j - i` stops.
   */
  lemma {:induction false} RouteEdgesSpec(db: Db, s: Settings, r: Route)
    requires s.busVelocity != 0
    ensures |r.stops| >= 1 ==> 2 * |RouteEdges(db, s, r)| == |r.stops| * (|r.stops| - 1)
    ensures |r.stops| == 0 ==> RouteEdges(db, s, r) == []
    ensures forall e :: e in RouteEdges(db, s, r) <==>
              exists i, j :: 0 <= i < j < |r.stops| && e == TravelEdge(db, s, r.name, r.stops, i, j)
  {
    var k := |r.stops|;
    if k >= 1 {
      RouteEdgesCount(db, s, r.name, r.stops, k - 1);
      assert (k - 1) * (2 * k - (k - 1) - 1) == k * (k - 1);
    }
    RouteEdgesMembers(db, s, r.name, r.stops, if k == 0 then 0 else k - 1);
  }

  /** A TRAVEL edge's weight is its road distance over the speed, and its span is `j - i`. */
  lemma {:induction false} TravelEdgeSpec(db: Db, s: Settings, name: string, ids: seq<StopId>, i: nat, j: nat)
    requires i < j < |ids| && s.busVelocity != 0
    ensures TravelEdge(db, s, name, ids, i, j).weight * Speed(s) == Segment(db, ids, i, j) as real
    ensures TravelEdge(db, s, name, ids, i, j).spanCount == j - i >= 1
    ensures TravelEdge(db, s, name, ids, i, j).kind == Travel
  {
  }

  /** The distance of a segment splits at any middle position. */
  lemma {:induction false} SegmentSplit(db: Db, ids: seq<StopId>, i: nat, m: nat, j: nat)
    requires i <= m <= j < |ids|
    ensures Segment(db, ids, i, j) == Segment(db, ids, i, m) + Segment(db, ids, m, j)
    decreases j
  {
    if j > m {
      SegmentSplit(db, ids, i, m, j - 1);
    }
  }

  /** The edge over a whole route carries the route's road length (before `size_t` wrapping). */
  lemma {:induction false} WholeRouteSegment(db: Db, ids: seq<StopId>)
    requires |ids| >= 1
    ensures Segment(db, ids, 0, |ids| - 1) == PathSum(db, ids)
    decreases |ids|
  {
    if |ids| >= 2 {
      var init := ids[..|ids| - 1];
      WholeRouteSegment(db, init);
      SegmentPrefix(db, ids, |ids| - 2);
    }
  }

  lemma {:induction false} SegmentPrefix(db: Db, ids: seq<StopId>, j: nat)
    requires j < |ids| - 1
    ensures Segment(db, ids, 0, j) == Segment(db, ids[..|ids| - 1], 0, j)
    decreases j
  {
    if j > 0 {
      SegmentPrefix(db, ids, j - 1);
    }
  }

  /** Every edge of the graph joins vertices below twice the number of stops. */
  lemma {:induction false} GraphVertexBounds(db: Db, s: Settings)
    requires Valid(db) && s.busVelocity != 0
    ensures forall e :: e in GraphEdges(db, s) ==> e.from < 2 * |db.stops| && e.to < 2 * |db.stops|
  {
    forall e | e in GraphEdges(db, s)
      ensures e.from < 2 * |db.stops| && e.to < 2 * |db.stops|
    {
      if e in WaitEdges(db.stops, s) {
        var i :| 0 <= i < |db.stops| && WaitEdges(db.stops, s)[i] == e;
      } else {
        var n := AllTravelMember(db, s, |db.routes|, e);
        RouteEdgesSpec(db, s, db.routes[n]);
        var i, j :| 0 <= i < j < |db.routes[n].stops| && e == TravelEdge(db, s, db.routes[n].name, db.routes[n].stops, i, j);
        assert StopsKnown(db, db.routes[n].stops);
      }
    }
  }

  /** The route a TRAVEL edge of the first `n` routes comes from. */
  lemma {:induction false} AllTravelMember(db: Db, s: Settings, n: nat, e: Edge) returns (k: nat)
    requires n <= |db.routes| && s.busVelocity != 0
    requires e in AllTravelEdges(db, s, n)
    ensures k < n && e in RouteEdges(db, s, db.routes[k])
  {
    if e in AllTravelEdges(db, s, n - 1) {
      k := AllTravelMember(db, s, n - 1, e);
    } else {
      k := n - 1;
    }
  }

  // ---------------------------------------------------------------------
  // Translating a path into an itinerary.

  /** The itinerary leg for an edge: WAIT legs carry span 0. */
  function ItemOf(e: Edge): (r: RouteItem)
    ensures r.name == e.name && r.time == e.weight && r.kind == e.kind
    ensures r.spanCount == (if e.kind == Travel then e.spanCount else 0)
  {
    RouteItem(e.name, if e.kind == Travel then e.spanCount else 0, e.weight, e.kind)
  }

  /** The legs of a path, in path order. */
  function Items(g: seq<Edge>, p: seq<nat>): (r: seq<RouteItem>)
    requires forall i :: 0 <= i < |p| ==> p[i] < |g|
    ensures |r| == |p|
    ensures forall i :: 0 <= i < |p| ==> r[i] == ItemOf(g[p[i]])
  {
    seq(|p|, i requires 0 <= i < |p| => ItemOf(g[p[i]]))
  }

  function TotalTime(items: seq<RouteItem>): real {
    if items == [] then 0.0 else TotalTime(items[..|items| - 1]) + items[|items| - 1].time
  }

  /** The itinerary `CalculateRoute` answers for a search result. */
  function Itinerary(g: seq<Edge>, found: Option<seq<nat>>): RouteData
    requires found.Some? ==> forall i :: 0 <= i < |found.value| ==> found.value[i] < |g|
  {
    match found
    case None => NotFound
    case Some(p) => RouteData(TotalTime(Items(g, p)), Items(g, p), true)
  }

  /** Legs of a path through the compiled graph: WAIT legs are at a stop, TRAVEL legs ride at least one stop. */
  lemma {:induction false} ItineraryLegs(db: Db, s: Settings, p: seq<nat>)
    requires Valid(db) && s.busVelocity != 0
    requires forall i :: 0 <= i < |p| ==> p[i] < |GraphEdges(db, s)|
    ensures forall i :: 0 <= i < |p| ==>
              var it := Items(GraphEdges(db, s), p)[i];
              (it.kind == Wait ==> it.spanCount == 0 && it.time == s.busWaitTime as real && exists x :: 0 <= x < |db.stops| && db.stops[x].name == it.name)
              && (it.kind == Travel ==> it.spanCount >= 1 && exists k :: 0 <= k < |db.routes| && db.routes[k].name == it.name)
  {
    var g := GraphEdges(db, s);
    forall i | 0 <= i < |p|
      ensures var it := Items(g, p)[i];
              (it.kind == Wait ==> it.spanCount == 0 && it.time == s.busWaitTime as real && exists x :: 0 <= x < |db.stops| && db.stops[x].name == it.name)
              && (it.kind == Travel ==> it.spanCount >= 1 && exists k :: 0 <= k < |db.routes| && db.routes[k].name == it.name)
    {
      var e := g[p[i]];
      if p[i] < |db.stops| {
        assert e == WaitEdge(db.stops, s, p[i]);
      } else {
        assert e in AllTravelEdges(db, s, |db.routes|) by {
          assert e == AllTravelEdges(db, s, |db.routes|)[p[i] - |db.stops|];
        }
        var n := AllTravelMember(db, s, |db.routes|, e);
        RouteEdgesSpec(db, s, db.routes[n]);
      }
    }
  }

  // ---------------------------------------------------------------------
  // The router object.

  /**
   * The as-written bound of the outer TRAVEL loop: `stops.size() - 1` in
   * `size_t`, which for an empty route wraps to 2^64 - 1.
   */
  function OuterBoundAsWritten(k: nat): nat
    requires k < SIZE_T
  {
    (k + SIZE_T - 1) % SIZE_T
  }

  /** For an empty route the as-written loop runs 2^64 - 1 (empty) iterations instead of none. */
  lemma {:induction false} EmptyRouteOuterBound()
    ensures OuterBoundAsWritten(0) == SIZE_T - 1
    ensures forall k :: 1 <= k < SIZE_T ==> OuterBoundAsWritten(k) == k - 1
  {
  }

  class TransportRouter {
    const catalogue: TransportCatalogue
    var settings: Settings
    /** Number of vertices the graph was created with. */
    var vertexCount: nat
    var edges: seq<Edge>
    var waitVertex: map<string, nat>
    var travelVertex: map<string, nat>
    /** Whether the graph and the search engine have been built. */
    var built: bool

    /** The state of a router whose graph has not been built yet. */
    ghost predicate Unbuilt()
      reads this
    {
      !built ==> edges == [] && waitVertex == map[] && travelVertex == map[]
    }

    constructor(tc: TransportCatalogue)
      ensures catalogue == tc && settings == DefaultSettings
      ensures vertexCount == 2 * |tc.stops|
      ensures !built && Unbuilt()
    {
      catalogue := tc;
      settings := DefaultSettings;
      vertexCount := 2 * |tc.stops|;
      edges, waitVertex, travelVertex := [], map[], map[];
      built := false;
    }

    method ApplyRouterSettings(s: Settings)
      modifies this
      ensures settings == s
      ensures edges == old(edges) && built == old(built) && vertexCount == old(vertexCount)
      ensures waitVertex == old(waitVertex) && travelVertex == old(travelVertex)
    {
      settings := s;
    }

    /**
     * `CalculateRoute`: build the graph on the first call, look up the two
     * wait vertices (an unknown name throws), run the search and translate
     * its answer.
     */
    method CalculateRoute(from: string, to: string, search: PathSearch) returns (r: Result<RouteData, RouteError>)
      requires catalogue.Inv() && Unbuilt()
      requires !built ==> settings.busVelocity != 0
      modifies this
      ensures built && Unbuilt() && settings == old(settings) && vertexCount == old(vertexCount)
      ensures old(built) ==> edges == old(edges) && waitVertex == old(waitVertex) && travelVertex == old(travelVertex)
      ensures !old(built) ==>
                && edges == GraphEdges(catalogue.State(), settings)
                && waitVertex == VertexMap(catalogue.stops, 0)
                && travelVertex == VertexMap(catalogue.stops, 1)
      ensures r.Err? <==> from !in waitVertex || to !in waitVertex
      ensures r.Ok? ==>
                var found := search(vertexCount, edges, waitVertex[from], waitVertex[to]);
                ValidAnswer(edges, waitVertex[from], waitVertex[to], found) && r.value == Itinerary(edges, found)
    {
      if !built {
        BuildGraph();
      }
      if from !in waitVertex || to !in waitVertex {
        return Err(UnknownStop);
      }
      var u, v := waitVertex[from], waitVertex[to];
      var found := search(vertexCount, edges, u, v);
      assert ValidAnswer(edges, u, v, found);
      var data := NotFound;
      if found.Some? {
        data := Translate(found.value);
      }
      return Ok(data);
    }

    /** The loop of `CalculateRoute` over the found path: one leg per edge, times summed. */
    method Translate(p: seq<nat>) returns (data: RouteData)
      requires forall i :: 0 <= i < |p| ==> p[i] < |edges|
      ensures data == Itinerary(edges, Some(p))
    {
      var total := 0.0;
      var items: seq<RouteItem> := [];
      var i := 0;
      while i < |p|
        invariant 0 <= i <= |p|
        invariant items == Items(edges, p[..i])
        invariant total == TotalTime(items)
      {
        var e := edges[p[i]];
        total := total + e.weight;
        items := items + [RouteItem(e.name, if e.kind == Travel then e.spanCount else 0, e.weight, e.kind)];
        assert items[..i] == Items(edges, p[..i]);
        i := i + 1;
      }
      assert p[..i] == p;
      data := RouteData(total, items, true);
    }

    /** `BuildGraph`: number the vertices, add the WAIT edges, then the TRAVEL edges route by route. */
    method BuildGraph()
      requires catalogue.Inv() && !built && edges == [] && waitVertex == map[] && travelVertex == map[]
      requires settings.busVelocity != 0
      modifies this
      ensures built && settings == old(settings) && vertexCount == old(vertexCount)
      ensures edges == GraphEdges(catalogue.State(), settings)
      ensures waitVertex == VertexMap(catalogue.stops, 0)
      ensures travelVertex == VertexMap(catalogue.stops, 1)
    {
      ghost var db := catalogue.State();
      AddWaitEdges();
      var k := 0;
      while k < |catalogue.routes|
        invariant 0 <= k <= |catalogue.routes|
        invariant settings == old(settings) && vertexCount == old(vertexCount) && !built
        invariant edges == WaitEdges(db.stops, settings) + AllTravelEdges(db, settings, k)
        invariant waitVertex == VertexMap(db.stops, 0) && travelVertex == VertexMap(db.stops, 1)
      {
        AddNthRouteEdges(db, k);
        k := k + 1;
      }
      built := true;
    }

    /** The first loop of `BuildGraph`: two vertices and one WAIT edge per stop, in stop order. */
    method AddWaitEdges()
      requires catalogue.Inv() && edges == [] && waitVertex == map[] && travelVertex == map[]
      modifies this
      ensures settings == old(settings) && vertexCount == old(vertexCount) && built == old(built)
      ensures edges == WaitEdges(catalogue.stops, settings)
      ensures waitVertex == VertexMap(catalogue.stops, 0) && travelVertex == VertexMap(catalogue.stops, 1)
    {
      ValidDistinct(catalogue.State());
      var all := catalogue.stops;
      var vertex := 0;
      var i := 0;
      while i < |all|
        invariant 0 <= i <= |all| && vertex == 2 * i
        invariant settings == old(settings) && vertexCount == old(vertexCount) && built == old(built)
        invariant waitVertex == VertexMap(all[..i], 0) && travelVertex == VertexMap(all[..i], 1)
        invariant edges == WaitEdges(all[..i], settings)
      {
        AddStopVertices(all, i, vertex);
        vertex := vertex + 2;
        i := i + 1;
      }
      assert all[..i] == all;
    }

    /** One turn of the WAIT loop: the two vertices of stop `i` and the edge between them. */
    method AddStopVertices(all: seq<Stop>, i: nat, vertex: nat)
      requires DistinctNames(all) && i < |all| && vertex == 2 * i
      requires waitVertex == VertexMap(all[..i], 0) && travelVertex == VertexMap(all[..i], 1)
      requires edges == WaitEdges(all[..i], settings)
      modifies this
      ensures settings == old(settings) && vertexCount == old(vertexCount) && built == old(built)
      ensures waitVertex == VertexMap(all[..i + 1], 0) && travelVertex == VertexMap(all[..i + 1], 1)
      ensures edges == WaitEdges(all[..i + 1], settings)
    {
      var name := all[i].name;
      WaitStep(all, settings, i);
      // The names are distinct, so inserting and assigning agree.
      waitVertex := waitVertex[name := vertex];
      travelVertex := travelVertex[name := vertex + 1];
      var e := Edge(waitVertex[name], travelVertex[name], settings.busWaitTime as real, name, Wait, 0);
      assert e == WaitEdge(all, settings, i);
      edges := edges + [e];
    }

    /** The TRAVEL loops of `BuildGraph` for one route: every position `i` with a later one. */
    method AddRouteEdges(ghost db: Db, route: Route)
      requires db == catalogue.State() && Valid(db) && settings.busVelocity != 0
      requires StopsKnown(db, route.stops)
      requires waitVertex == VertexMap(db.stops, 0) && travelVertex == VertexMap(db.stops, 1)
      modifies this
      ensures settings == old(settings) && vertexCount == old(vertexCount) && built == old(built)
      ensures edges == old(edges) + RouteEdges(db, settings, route)
      ensures waitVertex == old(waitVertex) && travelVertex == old(travelVertex)
    {
      var from := 0;
      while from + 1 < |route.stops|
        invariant 0 <= from && (from <= |route.stops| - 1 || from == 0)
        invariant settings == old(settings) && vertexCount == old(vertexCount) && built == old(built)
        invariant edges == old(edges) + RouteEdgesUpTo(db, settings, route.name, route.stops, from)
        invariant waitVertex == old(waitVertex) && travelVertex == old(travelVertex)
      {
        ghost var done := RouteEdgesUpTo(db, settings, route.name, route.stops, from);
        ghost var row := RowEdges(db, settings, route.name, route.stops, from, |route.stops|);
        AddRowEdges(db, route.name, route.stops, from);
        assert RouteEdgesUpTo(db, settings, route.name, route.stops, from + 1) == done + row;
        AppendAssoc(old(edges), done, row);
        from := from + 1;
      }
    }

    /** One turn of the outer loop of `BuildGraph`: the TRAVEL edges of route `k`. */
    method AddNthRouteEdges(ghost db: Db, k: nat)
      requires db == catalogue.State() && Valid(db) && settings.busVelocity != 0 && k < |catalogue.routes|
      requires waitVertex == VertexMap(db.stops, 0) && travelVertex == VertexMap(db.stops, 1)
      requires edges == WaitEdges(db.stops, settings) + AllTravelEdges(db, settings, k)
      modifies this
      ensures settings == old(settings) && vertexCount == old(vertexCount) && built == old(built)
      ensures edges == WaitEdges(db.stops, settings) + AllTravelEdges(db, settings, k + 1)
      ensures waitVertex == old(waitVertex) && travelVertex == old(travelVertex)
    {
      var route := catalogue.routes[k];
      assert route == db.routes[k] && StopsKnown(db, route.stops);
      ghost var wait, travel := WaitEdges(db.stops, settings), AllTravelEdges(db, settings, k);
      AddRouteEdges(db, route);
      assert AllTravelEdges(db, settings, k + 1) == travel + RouteEdges(db, settings, route);
      AppendAssoc(wait, travel, RouteEdges(db, settings, route));
    }

    /** The middle loop of `BuildGraph`: edges from position `i` to every later position. */
    method AddRowEdges(ghost db: Db, name: string, ids: seq<StopId>, i: nat)
      requires db == catalogue.State() && Valid(db) && settings.busVelocity != 0
      requires StopsKnown(db, ids) && i + 1 < |ids|
      requires waitVertex == VertexMap(db.stops, 0) && travelVertex == VertexMap(db.stops, 1)
      modifies this
      ensures settings == old(settings) && vertexCount == old(vertexCount) && built == old(built)
      ensures edges == old(edges) + RowEdges(db, settings, name, ids, i, |ids|)
      ensures waitVertex == old(waitVertex) && travelVertex == old(travelVertex)
    {
      ValidDistinct(db);
      VertexOf(db.stops, ids[i], 1);
      var span := 0;
      var to := i + 1;
      while to < |ids|
        invariant i + 1 <= to <= |ids| && span == to - i - 1
        invariant settings == old(settings) && vertexCount == old(vertexCount) && built == old(built)
        invariant edges == old(edges) + RowEdges(db, settings, name, ids, i, to)
        invariant waitVertex == old(waitVertex) && travelVertex == old(travelVertex)
      {
        var road := RoadDistance(db, ids, i, to);
        VertexOf(db.stops, ids[to], 0);
        span := span + 1;
        var e := Edge(travelVertex[catalogue.stops[ids[i]].name], waitVertex[catalogue.stops[ids[to]].name],
                      road / (settings.busVelocity as real * 1000.0 / 60.0), name, Travel, span);
        assert e == TravelEdge(db, settings, name, ids, i, to);
        assert RowEdges(db, settings, name, ids, i, to + 1) == RowEdges(db, settings, name, ids, i, to) + [e];
        AppendAssoc(old(edges), RowEdges(db, settings, name, ids, i, to), [e]);
        edges := edges + [e];
        to := to + 1;
      }
    }

    /** The innermost loop of `BuildGraph`: the road distance from position `i` to position `j`. */
    method RoadDistance(ghost db: Db, ids: seq<StopId>, i: nat, j: nat) returns (d: real)
      requires db == catalogue.State() && i < j < |ids|
      ensures d == Segment(db, ids, i, j) as real
    {
      d := 0.0;
      var t := i + 1;
      while t <= j
        invariant i + 1 <= t <= j + 1
        invariant d == Segment(db, ids, i, t - 1) as real
      {
        d := d + Distance(catalogue.State(), ids[t - 1], ids[t]) as real;
        t := t + 1;
      }
    }
  }
}
