/**
 * The JSON front end of the catalogue: it loads the base requests into
 * the catalogue, decodes colours, and answers the stat requests.
 *
 * Loading makes three passes over the base requests: the coordinates of
 * every "Stop", then the road distances of every "Stop", then every
 * "Bus". Each `After*` function is one request applied to the catalogue
 * as a value; the methods drive the catalogue object through the same
 * steps. A `Dict::at` on a missing key throws `std::out_of_range`
 * (`MissingKey` here) and an `As*` accessor on the wrong alternative throws
 * `std::logic_error` (`WrongType`).
 */
module JsonReader {
  import opened Wrappers
  import opened Strings
  import opened Json
  import opened Catalogue
  import JsonPrint
  import JsonBuilder
  import Seqs
  import InputReader
  import Router
  import RequestHandler

  datatype ReadError = MissingKey | WrongType

  // ---------------------------------------------------------------------
  // Typed lookups: `d.at(k).AsX()`.

  function At(d: map<string, Node>, k: string): (r: Result<Node, ReadError>)
    ensures r.Ok? <==> k in d
    ensures r.Ok? ==> r.value == d[k]
  {
    if k in d then Ok(d[k]) else Err(MissingKey)
  }

  function StringAt(d: map<string, Node>, k: string): (r: Result<string, ReadError>)
    ensures r.Ok? <==> k in d && d[k].Str?
    ensures r.Ok? ==> r.value == d[k].s
  {
    if k !in d then Err(MissingKey) else if d[k].Str? then Ok(d[k].s) else Err(WrongType)
  }

  function IntAt(d: map<string, Node>, k: string): (r: Result<int32, ReadError>)
    ensures r.Ok? <==> k in d && d[k].Int?
    ensures r.Ok? ==> r.value == d[k].i
  {
    if k !in d then Err(MissingKey) else if d[k].Int? then Ok(d[k].i) else Err(WrongType)
  }

  /** `AsDouble` also accepts an int, widened. */
  function DoubleAt(d: map<string, Node>, k: string): (r: Result<real, ReadError>)
    ensures r.Ok? <==> k in d && IsDouble(d[k])
  {
    if k !in d then Err(MissingKey)
    else match AsDouble(d[k]) case Ok(x) => Ok(x) case Err(_) => Err(WrongType)
  }

  function BoolAt(d: map<string, Node>, k: string): (r: Result<bool, ReadError>)
    ensures r.Ok? <==> k in d && d[k].Bool?
  {
    if k !in d then Err(MissingKey) else if d[k].Bool? then Ok(d[k].b) else Err(WrongType)
  }

  function ArrayAt(d: map<string, Node>, k: string): (r: Result<seq<Node>, ReadError>)
    ensures r.Ok? <==> k in d && d[k].Array?
    ensures r.Ok? ==> r.value == d[k].items
  {
    if k !in d then Err(MissingKey) else if d[k].Array? then Ok(d[k].items) else Err(WrongType)
  }

  function DictAt(d: map<string, Node>, k: string): (r: Result<map<string, Node>, ReadError>)
    ensures r.Ok? <==> k in d && d[k].Dict?
    ensures r.Ok? ==> r.value == d[k].entries
  {
    if k !in d then Err(MissingKey) else if d[k].Dict? then Ok(d[k].entries) else Err(WrongType)
  }

  // ---------------------------------------------------------------------
  // One base request.

  /** `AddStopData`: the stop named by "name" at "latitude", "longitude". */
  function AfterStopData(db: Db, d: map<string, Node>): (r: Result<Db, ReadError>)
    requires Valid(db)
    ensures r.Ok? <==> StringAt(d, "name").Ok? && DoubleAt(d, "latitude").Ok? && DoubleAt(d, "longitude").Ok?
    ensures r.Ok? ==> Valid(r.value)
  {
    match StringAt(d, "name")
    case Err(e) => Err(e)
    case Ok(name) =>
      match DoubleAt(d, "latitude")
      case Err(e) => Err(e)
      case Ok(lat) =>
        match DoubleAt(d, "longitude")
        case Err(e) => Err(e)
        case Ok(lng) => Ok(AfterAddStop(db, Stop(name, lat, lng)))
  }

  /** `static_cast<size_t>` of an `int`: a negative value wraps around. */
  function SizeCast(i: int32): (r: SizeT)
    ensures i >= 0 ==> r == i as int
    ensures i < 0 ==> r == SIZE_T + i as int
  {
    (i as int) % SIZE_T
  }

  /**
   * The loop of `AddStopDistance` over the entries of "road_distances",
   * taken in the order `keys`: each distance is read as an int and
   * recorded from `from` to the stop of that name (none if unknown).
   */
  function RoadFold(db: Db, from: StopId, keys: seq<string>, road: map<string, Node>): (r: Result<Db, ReadError>)
    requires Valid(db) && from < |db.stops|
    requires forall j :: 0 <= j < |keys| ==> keys[j] in road
    ensures r.Ok? ==> Valid(r.value)
    ensures r.Ok? ==> r.value.stops == db.stops && r.value.stopIndex == db.stopIndex
    ensures r.Ok? ==> r.value.routes == db.routes && r.value.routeIndex == db.routeIndex
    decreases |keys|
  {
    if keys == [] then Ok(db)
    else
      var v := road[keys[0]];
      if !v.Int? then Err(WrongType)
      else RoadFold(AfterAddDistance(db, Some(from), StopByName(db, keys[0]), SizeCast(v.i)), from, keys[1..], road)
  }

  /**
   * `AddStopDistance`: nothing for an origin the catalogue does not know;
   * otherwise the entries of "road_distances" in ascending key order.
   */
  ghost function AfterStopDistance(db: Db, d: map<string, Node>): (r: Result<Db, ReadError>)
    requires Valid(db)
    ensures r.Ok? ==> Valid(r.value)
    ensures r.Ok? ==> r.value.stops == db.stops && r.value.stopIndex == db.stopIndex
    ensures r.Ok? ==> r.value.routes == db.routes && r.value.routeIndex == db.routeIndex
  {
    match StringAt(d, "name")
    case Err(e) => Err(e)
    case Ok(name) =>
      match StopByName(db, name)
      case None => Ok(db)
      case Some(from) =>
        match DictAt(d, "road_distances")
        case Err(e) => Err(e)
        case Ok(road) => RoadFold(db, from, JsonPrint.SortedKeys(road.Keys), road)
  }

  /**
   * The loop of `AddRouteData` over "stops": each element read as a
   * string, and the ids of the names the catalogue knows, in order.
   */
  function RouteIds(db: Db, items: seq<Node>): (r: Result<seq<StopId>, ReadError>)
    requires Valid(db)
    ensures r.Ok? ==> StopsKnown(db, r.value)
    decreases |items|
  {
    if items == [] then Ok([])
    else if !items[0].Str? then Err(WrongType)
    else Prefixed(InputReader.KnownHead(db, items[0].s), RouteIds(db, items[1..]))
  }

  /** A result with `ids` in front of the ids a later stretch yields. */
  function Prefixed(ids: seq<StopId>, r: Result<seq<StopId>, ReadError>): Result<seq<StopId>, ReadError> {
    match r case Err(e) => Err(e) case Ok(t) => Ok(ids + t)
  }

  /** `AddRouteData`: the route "name", circular when "is_roundtrip", through the known "stops". */
  function AfterRouteData(db: Db, d: map<string, Node>): (r: Result<Db, ReadError>)
    requires Valid(db)
    ensures r.Ok? ==> Valid(r.value)
    ensures r.Ok? ==> r.value.stops == db.stops && r.value.stopIndex == db.stopIndex && r.value.distances == db.distances
  {
    match StringAt(d, "name")
    case Err(e) => Err(e)
    case Ok(name) =>
      match BoolAt(d, "is_roundtrip")
      case Err(e) => Err(e)
      case Ok(circular) =>
        match ArrayAt(d, "stops")
        case Err(e) => Err(e)
        case Ok(items) =>
          match RouteIds(db, items)
          case Err(e) => Err(e)
          case Ok(ids) => Ok(AfterAddRoute(db, name, ids, circular))
  }

  // ---------------------------------------------------------------------
  // The three passes.

  /** The "type" each pass handles: "Stop" twice, then "Bus". */
  function StageKind(stage: nat): string {
    if stage < 2 then "Stop" else "Bus"
  }

  /**
   * One element in pass `stage`: it must be a dictionary; without a
   * "type" it is skipped; its "type" must be a string, and only the kind
   * of the pass is handled.
   */
  ghost function Entry(db: Db, e: Node, stage: nat): (r: Result<Db, ReadError>)
    requires Valid(db) && stage < 3
    ensures r.Ok? ==> Valid(r.value)
    ensures r.Ok? && stage == 0 ==> r.value.routes == db.routes && r.value.routeIndex == db.routeIndex && r.value.distances == db.distances
    ensures r.Ok? && stage == 1 ==> r.value.stops == db.stops && r.value.stopIndex == db.stopIndex && r.value.routes == db.routes && r.value.routeIndex == db.routeIndex
    ensures r.Ok? && stage == 2 ==> r.value.stops == db.stops && r.value.stopIndex == db.stopIndex && r.value.distances == db.distances
  {
    if !e.Dict? then Err(WrongType)
    else if "type" !in e.entries then Ok(db)
    else if !e.entries["type"].Str? then Err(WrongType)
    else if e.entries["type"].s != StageKind(stage) then Ok(db)
    else if stage == 0 then AfterStopData(db, e.entries)
    else if stage == 1 then AfterStopDistance(db, e.entries)
    else AfterRouteData(db, e.entries)
  }

  /** One pass over the elements, stopping at the first that throws. */
  ghost function PassOver(db: Db, es: seq<Node>, stage: nat): (r: Result<Db, ReadError>)
    requires Valid(db) && stage < 3
    ensures r.Ok? ==> Valid(r.value)
    ensures r.Ok? && stage == 0 ==> r.value.routes == db.routes && r.value.routeIndex == db.routeIndex && r.value.distances == db.distances
    ensures r.Ok? && stage == 1 ==> r.value.stops == db.stops && r.value.stopIndex == db.stopIndex && r.value.routes == db.routes && r.value.routeIndex == db.routeIndex
    ensures r.Ok? && stage == 2 ==> r.value.stops == db.stops && r.value.stopIndex == db.stopIndex && r.value.distances == db.distances
    decreases |es|
  {
    if es == [] then Ok(db)
    else match PassOver(db, es[..|es| - 1], stage)
      case Err(e) => Err(e)
      case Ok(d) => Entry(d, es[|es| - 1], stage)
  }

  /** The passes from `stage` on. */
  ghost function Passes(db: Db, es: seq<Node>, stage: nat): (r: Result<Db, ReadError>)
    requires Valid(db) && stage <= 3
    ensures r.Ok? ==> Valid(r.value)
    decreases 3 - stage
  {
    if stage == 3 then Ok(db)
    else match PassOver(db, es, stage)
      case Err(e) => Err(e)
      case Ok(d) => Passes(d, es, stage + 1)
  }

  /** `AddToDB`: all three passes. */
  ghost function Ingest(db: Db, es: seq<Node>): (r: Result<Db, ReadError>)
    requires Valid(db)
  {
    Passes(db, es, 0)
  }

  // ---------------------------------------------------------------------
  // What one base request does.

  predicate Distinct(keys: seq<string>) {
    forall i, j :: 0 <= i < j < |keys| ==> keys[i] != keys[j]
  }

  /** Two known names have different ids. */
  lemma {:induction false} StopIdsDiffer(db: Db, a: string, b: string)
    requires Valid(db) && a in db.stopIndex && b in db.stopIndex && a != b
    ensures db.stopIndex[a] != db.stopIndex[b]
  {
  }

  /** The distances walk succeeds exactly when every distance is an int. */
  lemma {:induction false} RoadFoldOk(db: Db, from: StopId, keys: seq<string>, road: map<string, Node>)
    requires Valid(db) && from < |db.stops|
    requires forall j :: 0 <= j < |keys| ==> keys[j] in road
    ensures RoadFold(db, from, keys, road).Ok? <==> forall j :: 0 <= j < |keys| ==> road[keys[j]].Int?
    decreases |keys|
  {
    if keys != [] {
      var v := road[keys[0]];
      if v.Int? {
        var db1 := AfterAddDistance(db, Some(from), StopByName(db, keys[0]), SizeCast(v.i));
        RoadFoldOk(db1, from, keys[1..], road);
        assert forall j :: 1 <= j < |keys| ==> keys[1..][j - 1] == keys[j];
      }
    }
  }

  /** Every entry the table had is kept: the first write wins. */
  lemma {:induction false} RoadFoldKeeps(db: Db, from: StopId, keys: seq<string>, road: map<string, Node>)
    requires Valid(db) && from < |db.stops|
    requires forall j :: 0 <= j < |keys| ==> keys[j] in road
    requires RoadFold(db, from, keys, road).Ok?
    ensures var t := RoadFold(db, from, keys, road).value.distances;
            forall p :: p in db.distances ==> p in t && t[p] == db.distances[p]
    decreases |keys|
  {
    if keys != [] {
      var v := road[keys[0]];
      var to := StopByName(db, keys[0]);
      var db1 := AfterAddDistance(db, Some(from), to, SizeCast(v.i));
      AddDistanceSpec(db, Some(from), to, SizeCast(v.i));
      RoadFoldKeeps(db1, from, keys[1..], road);
    }
  }

  /**
   * Every known destination has an entry from `from`; one that had none
   * holds the distance read.
   */
  lemma {:induction false} RoadFoldAdds(db: Db, from: StopId, keys: seq<string>, road: map<string, Node>)
    requires Valid(db) && from < |db.stops|
    requires forall j :: 0 <= j < |keys| ==> keys[j] in road
    requires Distinct(keys)
    requires RoadFold(db, from, keys, road).Ok?
    ensures var t := RoadFold(db, from, keys, road).value.distances;
            forall j :: 0 <= j < |keys| && keys[j] in db.stopIndex ==>
              && (from, db.stopIndex[keys[j]]) in t && road[keys[j]].Int?
              && ((from, db.stopIndex[keys[j]]) !in db.distances ==> t[(from, db.stopIndex[keys[j]])] == SizeCast(road[keys[j]].i))
    decreases |keys|
  {
    if keys != [] {
      var k, v := keys[0], road[keys[0]];
      var rest := keys[1..];
      assert forall j :: 1 <= j < |keys| ==> rest[j - 1] == keys[j];
      var to := StopByName(db, k);
      var db1 := AfterAddDistance(db, Some(from), to, SizeCast(v.i));
      AddDistanceSpec(db, Some(from), to, SizeCast(v.i));
      RoadFoldAdds(db1, from, rest, road);
      RoadFoldKeeps(db1, from, rest, road);
      RoadFoldOk(db, from, keys, road);
      var t := RoadFold(db1, from, rest, road).value.distances;
      forall j | 0 <= j < |keys| && keys[j] in db.stopIndex
        ensures (from, db.stopIndex[keys[j]]) in t && road[keys[j]].Int?
        ensures (from, db.stopIndex[keys[j]]) !in db.distances ==> t[(from, db.stopIndex[keys[j]])] == SizeCast(road[keys[j]].i)
      {
        if j > 0 && k in db.stopIndex {
          StopIdsDiffer(db, keys[j], k);
        }
      }
    }
  }

  /** The table gains no entry but those from `from` to a known destination. */
  lemma {:induction false} RoadFoldOnly(db: Db, from: StopId, keys: seq<string>, road: map<string, Node>)
    requires Valid(db) && from < |db.stops|
    requires forall j :: 0 <= j < |keys| ==> keys[j] in road
    requires RoadFold(db, from, keys, road).Ok?
    ensures var t := RoadFold(db, from, keys, road).value.distances;
            forall p :: p in t ==>
              (p in db.distances || exists j :: 0 <= j < |keys| && keys[j] in db.stopIndex && p == (from, db.stopIndex[keys[j]]))
    decreases |keys|
  {
    if keys != [] {
      var v := road[keys[0]];
      var rest := keys[1..];
      var to := StopByName(db, keys[0]);
      var db1 := AfterAddDistance(db, Some(from), to, SizeCast(v.i));
      AddDistanceSpec(db, Some(from), to, SizeCast(v.i));
      RoadFoldOnly(db1, from, rest, road);
      var t := RoadFold(db1, from, rest, road).value.distances;
      forall p | p in t
        ensures p in db.distances || exists j :: 0 <= j < |keys| && keys[j] in db.stopIndex && p == (from, db.stopIndex[keys[j]])
      {
        if p !in db1.distances {
          var j :| 0 <= j < |rest| && rest[j] in db.stopIndex && p == (from, db.stopIndex[rest[j]]);
          assert keys[j + 1] == rest[j];
        }
      }
    }
  }

  /**
   * The table `t` after the distances in `road` from `from`: every old
   * entry kept, an entry to every known destination (the distance read,
   * unless one was recorded before), and nothing else.
   */
  ghost predicate RoadRecorded(db: Db, from: StopId, road: map<string, Node>, t: map<(StopId, StopId), SizeT>)
    requires Valid(db)
  {
    && (forall p :: p in db.distances ==> p in t && t[p] == db.distances[p])
    && (forall k :: k in road && k in db.stopIndex ==> (from, db.stopIndex[k]) in t)
    && (forall k :: k in road && k in db.stopIndex && road[k].Int? && (from, db.stopIndex[k]) !in db.distances ==>
          t[(from, db.stopIndex[k])] == SizeCast(road[k].i))
    && (forall p :: p in t ==> p in db.distances || exists k :: k in road && k in db.stopIndex && p == (from, db.stopIndex[k]))
  }

  /**
   * `AddStopDistance`: an unknown origin changes nothing (even without
   * "road_distances"); for a known one the request succeeds exactly when
   * every distance is an int, and then records them as `RoadRecorded`
   * says, whatever the order of the entries.
   */
  lemma {:induction false} StopDistanceSpec(db: Db, d: map<string, Node>)
    requires Valid(db) && StringAt(d, "name").Ok?
    ensures StopByName(db, d["name"].s).None? ==> AfterStopDistance(db, d) == Ok(db)
    ensures StopByName(db, d["name"].s).Some? && DictAt(d, "road_distances").Ok? ==>
              var road := d["road_distances"].entries;
              && (AfterStopDistance(db, d).Ok? <==> forall k :: k in road ==> road[k].Int?)
              && (AfterStopDistance(db, d).Ok? ==>
                    AfterStopDistance(db, d).value.stops == db.stops &&
                    RoadRecorded(db, StopByName(db, d["name"].s).value, road, AfterStopDistance(db, d).value.distances))
  {
    var from := StopByName(db, d["name"].s);
    if from.Some? && DictAt(d, "road_distances").Ok? {
      var road := d["road_distances"].entries;
      var keys := JsonPrint.SortedKeys(road.Keys);
      forall i, j | 0 <= i < j < |keys| ensures keys[i] != keys[j] {
        JsonPrint.SortedKeysDistinct(road.Keys, i, j);
      }
      assert AfterStopDistance(db, d) == RoadFold(db, from.value, keys, road);
      RoadFoldOk(db, from.value, keys, road);
      forall k | k in road
        ensures exists j :: 0 <= j < |keys| && keys[j] == k
      {
        JsonPrint.SortedKeysComplete(road.Keys, k);
      }
      if RoadFold(db, from.value, keys, road).Ok? {
        RoadFoldKeeps(db, from.value, keys, road);
        RoadFoldAdds(db, from.value, keys, road);
        RoadFoldOnly(db, from.value, keys, road);
      }
    }
  }

  /** The strings of `items` (an element that is not one stands as ""). */
  function NamesOf(items: seq<Node>): (r: seq<string>)
    ensures |r| == |items|
    decreases |items|
  {
    if items == [] then [] else [if items[0].Str? then items[0].s else ""] + NamesOf(items[1..])
  }

  /**
   * The stop list of a route succeeds exactly when every element is a
   * string, and is then the ids of the names the catalogue knows, in list
   * order.
   */
  lemma {:induction false} RouteIdsSpec(db: Db, items: seq<Node>)
    requires Valid(db)
    ensures RouteIds(db, items).Ok? <==> forall j :: 0 <= j < |items| ==> items[j].Str?
    ensures RouteIds(db, items).Ok? ==> RouteIds(db, items).value == InputReader.KnownIds(db, NamesOf(items))
    decreases |items|
  {
    if items != [] {
      RouteIdsSpec(db, items[1..]);
      assert forall j :: 1 <= j < |items| ==> items[1..][j - 1] == items[j];
      var names := NamesOf(items);
      assert !items[0].Str? || names[0] == items[0].s;
      assert names[1..] == NamesOf(items[1..]);
    }
  }

  /**
   * `AddRouteData` with a name, a flag and a stop array: it succeeds
   * exactly when every stop is a string; a taken name changes nothing,
   * and a new one is stored with the known stops in list order.
   */
  lemma {:induction false} RouteDataSpec(db: Db, d: map<string, Node>)
    requires Valid(db)
    requires StringAt(d, "name").Ok? && BoolAt(d, "is_roundtrip").Ok? && ArrayAt(d, "stops").Ok?
    ensures var items := d["stops"].items;
            AfterRouteData(db, d).Ok? <==> forall j :: 0 <= j < |items| ==> items[j].Str?
    ensures AfterRouteData(db, d).Ok? && d["name"].s in db.routeIndex ==> AfterRouteData(db, d).value == db
    ensures AfterRouteData(db, d).Ok? && d["name"].s !in db.routeIndex ==>
              var ids := InputReader.KnownIds(db, NamesOf(d["stops"].items));
              AfterRouteData(db, d).value.routes == db.routes + [NewRoute(db, d["name"].s, ids, d["is_roundtrip"].b)]
  {
    RouteIdsSpec(db, d["stops"].items);
  }

  /**
   * A route none of whose stops the catalogue knows (or with no stops at
   * all) is still stored under a new name, with no stops, no length and
   * curvature 1.
   */
  lemma {:induction false} ZeroStopRoute(db: Db, d: map<string, Node>)
    requires Valid(db)
    requires StringAt(d, "name").Ok? && BoolAt(d, "is_roundtrip").Ok? && ArrayAt(d, "stops").Ok?
    requires d["name"].s !in db.routeIndex
    requires forall j :: 0 <= j < |d["stops"].items| ==> d["stops"].items[j].Str? && d["stops"].items[j].s !in db.stopIndex
    ensures AfterRouteData(db, d).Ok?
    ensures AfterRouteData(db, d).value.routes == db.routes + [Route(d["name"].s, [], d["is_roundtrip"].b, 0, 0, Unit)]
  {
    var items := d["stops"].items;
    RouteDataSpec(db, d);
    var names := NamesOf(items);
    var ids := InputReader.KnownIds(db, names);
    InputReader.KnownIdsFromNames(db, names);
    if ids != [] {
      var u :| 0 <= u < |names| && StopByName(db, names[u]) == Some(ids[0]);
      NamesOfAt(items, u);
      assert false;
    }
    assert (set x: StopId | x in ids) == {};
  }

  lemma {:induction false} NamesOfAt(items: seq<Node>, u: nat)
    requires u < |items| && items[u].Str?
    ensures NamesOf(items)[u] == items[u].s
    decreases |items|
  {
    if u > 0 {
      NamesOfAt(items[1..], u - 1);
    }
  }

  /** An element a pass skips: a dictionary whose "type" is absent or another kind. */
  predicate Skipped(e: Node, stage: nat) {
    && e.Dict?
    && ("type" !in e.entries || (e.entries["type"].Str? && e.entries["type"].s != StageKind(stage)))
  }

  /** A skipped element leaves a pass as if it were not there. */
  lemma {:induction false} SkippedEntry(db: Db, a: seq<Node>, e: Node, b: seq<Node>, stage: nat)
    requires Valid(db) && stage < 3 && Skipped(e, stage)
    ensures PassOver(db, a + [e] + b, stage) == PassOver(db, a + b, stage)
    decreases |b|
  {
    if b == [] {
      assert a + [e] + b == a + [e] && a + b == a;
      assert (a + [e])[..|a + [e]| - 1] == a;
    } else {
      var b' := b[..|b| - 1];
      assert (a + [e] + b)[..|a + [e] + b| - 1] == a + [e] + b';
      assert (a + b)[..|a + b| - 1] == a + b';
      SkippedEntry(db, a, e, b', stage);
    }
  }

  /** A "Stop" element with a string "name". */
  predicate StopEntry(e: Node) {
    && e.Dict? && "type" in e.entries && e.entries["type"] == Str("Stop")
    && "name" in e.entries && e.entries["name"].Str?
  }

  /** The first pass never forgets a stop name. */
  lemma {:induction false} StopPassGrows(db: Db, es: seq<Node>)
    requires Valid(db) && PassOver(db, es, 0).Ok?
    ensures db.stopIndex.Keys <= PassOver(db, es, 0).value.stopIndex.Keys
    decreases |es|
  {
    if es != [] {
      var front := es[..|es| - 1];
      StopPassGrows(db, front);
      var d := PassOver(db, front, 0).value;
      var e := es[|es| - 1];
      if e.Dict? && "type" in e.entries && e.entries["type"] == Str("Stop") {
        var x := AfterStopData(d, e.entries).value;
        assert d.stopIndex.Keys <= x.stopIndex.Keys;
      }
    }
  }

  /** After the first pass every "Stop" element's name is a stop. */
  lemma {:induction false} StopPassKnowsAll(db: Db, es: seq<Node>)
    requires Valid(db) && PassOver(db, es, 0).Ok?
    ensures forall j :: 0 <= j < |es| && StopEntry(es[j]) ==> es[j].entries["name"].s in PassOver(db, es, 0).value.stopIndex
    decreases |es|
  {
    if es != [] {
      var front := es[..|es| - 1];
      StopPassKnowsAll(db, front);
      var d := PassOver(db, front, 0).value;
      var e := es[|es| - 1];
      var r := PassOver(db, es, 0).value;
      StopPassGrows(d, [e]);
      assert [e][..0] == [];
      assert PassOver(d, [e], 0) == Entry(d, e, 0);
      forall j | 0 <= j < |es| && StopEntry(es[j])
        ensures es[j].entries["name"].s in r.stopIndex
      {
        if j < |es| - 1 {
          assert es[j] == front[j];
        } else {
          var st := Stop(e.entries["name"].s, DoubleAt(e.entries, "latitude").value, DoubleAt(e.entries, "longitude").value);
          assert r == AfterAddStop(d, st);
          AddStopSpec(d, st);
        }
      }
    }
  }

  /**
   * `AddToDB` is the three passes in order. The distance pass and the bus
   * pass add no stop, so every route is resolved against the stops of
   * every "Stop" element, wherever it stands in the input; the stop pass
   * and the distance pass add no route, and the bus pass no distance.
   */
  lemma {:induction false} IngestOrder(db: Db, es: seq<Node>)
    requires Valid(db) && Ingest(db, es).Ok?
    ensures PassOver(db, es, 0).Ok?
    ensures var d0 := PassOver(db, es, 0).value;
            && PassOver(d0, es, 1).Ok?
            && var d1 := PassOver(d0, es, 1).value;
            && PassOver(d1, es, 2).Ok?
            && var d2 := PassOver(d1, es, 2).value;
            && Ingest(db, es) == Ok(d2)
            && d0.routes == db.routes && d0.distances == db.distances
            && d1.stops == d0.stops && d1.stopIndex == d0.stopIndex && d1.routes == db.routes
            && d2.stops == d0.stops && d2.stopIndex == d0.stopIndex && d2.distances == d1.distances
            && (forall j :: 0 <= j < |es| && StopEntry(es[j]) ==> es[j].entries["name"].s in d1.stopIndex)
  {
    var d0 := PassOver(db, es, 0).value;
    var d1 := PassOver(d0, es, 1).value;
    var d2 := PassOver(d1, es, 2).value;
    assert Passes(d2, es, 3) == Ok(d2);
    StopPassKnowsAll(db, es);
  }

  // ---------------------------------------------------------------------
  // The catalogue driven through the same steps.

  lemma {:induction false} PrefixedShift(ids: seq<StopId>, head: seq<StopId>, r: Result<seq<StopId>, ReadError>)
    ensures Prefixed(ids, Prefixed(head, r)) == Prefixed(ids + head, r)
  {
    if r.Ok? {
      Seqs.AppendAssoc(ids, head, r.value);
    }
  }

  /** An error in a prefix of the elements is an error of the whole pass. */
  lemma {:induction false} PassOverErr(db: Db, es: seq<Node>, n: nat, stage: nat)
    requires Valid(db) && stage < 3 && n <= |es|
    requires PassOver(db, es[..n], stage).Err?
    ensures PassOver(db, es, stage).Err?
    decreases |es|
  {
    if n < |es| {
      var front := es[..|es| - 1];
      assert front[..n] == es[..n];
      PassOverErr(db, front, n, stage);
    } else {
      assert es[..n] == es;
    }
  }

  method AddStopData(tc: TransportCatalogue, d: map<string, Node>) returns (r: Result<(), ReadError>)
    requires tc.Inv()
    modifies tc
    ensures tc.Inv()
    ensures r.Ok? <==> AfterStopData(old(tc.State()), d).Ok?
    ensures r.Ok? ==> tc.State() == AfterStopData(old(tc.State()), d).value
    ensures r.Err? ==> tc.State() == old(tc.State())
  {
    var name := StringAt(d, "name");
    if name.Err? {
      return Err(name.error);
    }
    var lat := DoubleAt(d, "latitude");
    if lat.Err? {
      return Err(lat.error);
    }
    var lng := DoubleAt(d, "longitude");
    if lng.Err? {
      return Err(lng.error);
    }
    tc.AddStop(Stop(name.value, lat.value, lng.value));
    return Ok(());
  }

  method AddStopDistance(tc: TransportCatalogue, d: map<string, Node>) returns (r: Result<(), ReadError>)
    requires tc.Inv()
    modifies tc
    ensures tc.Inv()
    ensures r.Ok? <==> AfterStopDistance(old(tc.State()), d).Ok?
    ensures r.Ok? ==> tc.State() == AfterStopDistance(old(tc.State()), d).value
  {
    var name := StringAt(d, "name");
    if name.Err? {
      return Err(name.error);
    }
    var fromOpt := StopByName(tc.State(), name.value);
    if fromOpt.None? {
      return Ok(());
    }
    var roadOpt := DictAt(d, "road_distances");
    if roadOpt.Err? {
      return Err(roadOpt.error);
    }
    var from, road := fromOpt.value, roadOpt.value;
    var rest := road.Keys;
    ghost var target := RoadFold(tc.State(), from, JsonPrint.SortedKeys(rest), road);
    while rest != {}
      invariant tc.Inv() && from < |tc.stops| && rest <= road.Keys
      invariant RoadFold(tc.State(), from, JsonPrint.SortedKeys(rest), road) == target
      decreases |rest|
    {
      JsonPrint.LeastExists(rest);
      var k :| k in rest && forall j :: j in rest ==> !Less(j, k);
      assert JsonPrint.IsLeast(k, rest);
      JsonPrint.SortedKeysLeast(rest, k);
      var v := road[k];
      if !v.Int? {
        return Err(WrongType);
      }
      tc.AddDistance(Some(from), StopByName(tc.State(), k), SizeCast(v.i));
      rest := rest - {k};
    }
    return Ok(());
  }

  method AddRouteData(tc: TransportCatalogue, d: map<string, Node>) returns (r: Result<(), ReadError>)
    requires tc.Inv()
    modifies tc
    ensures tc.Inv()
    ensures r.Ok? <==> AfterRouteData(old(tc.State()), d).Ok?
    ensures r.Ok? ==> tc.State() == AfterRouteData(old(tc.State()), d).value
    ensures r.Err? ==> tc.State() == old(tc.State())
  {
    var name := StringAt(d, "name");
    if name.Err? {
      return Err(name.error);
    }
    var circular := BoolAt(d, "is_roundtrip");
    if circular.Err? {
      return Err(circular.error);
    }
    var itemsOpt := ArrayAt(d, "stops");
    if itemsOpt.Err? {
      return Err(itemsOpt.error);
    }
    var items := itemsOpt.value;
    ghost var db := tc.State();
    var ids: seq<StopId> := [];
    var i := 0;
    assert items[i..] == items;
    assert Prefixed([], RouteIds(db, items)) == RouteIds(db, items) by {
      if RouteIds(db, items).Ok? {
        Seqs.AppendEmpty(RouteIds(db, items).value);
      }
    }
    while i < |items|
      invariant 0 <= i <= |items| && StopsKnown(db, ids) && tc.State() == db
      invariant RouteIds(db, items) == Prefixed(ids, RouteIds(db, items[i..]))
    {
      assert items[i..][0] == items[i] && items[i..][1..] == items[i + 1..];
      if !items[i].Str? {
        return Err(WrongType);
      }
      var found := StopByName(tc.State(), items[i].s);
      PrefixedShift(ids, InputReader.KnownHead(db, items[i].s), RouteIds(db, items[i + 1..]));
      if found.Some? {
        ids := ids + [found.value];
      } else {
        assert ids + [] == ids;
      }
      i := i + 1;
    }
    assert items[i..] == [] && ids + [] == ids;
    tc.AddRoute(name.value, ids, circular.value);
    return Ok(());
  }

  /** One element in pass `stage`. */
  method AddEntry(tc: TransportCatalogue, e: Node, stage: nat) returns (r: Result<(), ReadError>)
    requires tc.Inv() && stage < 3
    modifies tc
    ensures tc.Inv()
    ensures r.Ok? <==> Entry(old(tc.State()), e, stage).Ok?
    ensures r.Ok? ==> tc.State() == Entry(old(tc.State()), e, stage).value
  {
    if !e.Dict? {
      return Err(WrongType);
    }
    if "type" !in e.entries {
      return Ok(());
    }
    var kind := e.entries["type"];
    if !kind.Str? {
      return Err(WrongType);
    }
    if kind.s != StageKind(stage) {
      return Ok(());
    }
    if stage == 0 {
      r := AddStopData(tc, e.entries);
    } else if stage == 1 {
      r := AddStopDistance(tc, e.entries);
    } else {
      r := AddRouteData(tc, e.entries);
    }
  }

  /** One pass over the base requests. */
  method Pass(tc: TransportCatalogue, es: seq<Node>, stage: nat) returns (r: Result<(), ReadError>)
    requires tc.Inv() && stage < 3
    modifies tc
    ensures tc.Inv()
    ensures r.Ok? <==> PassOver(old(tc.State()), es, stage).Ok?
    ensures r.Ok? ==> tc.State() == PassOver(old(tc.State()), es, stage).value
  {
    ghost var start := tc.State();
    var i := 0;
    while i < |es|
      invariant 0 <= i <= |es| && tc.Inv()
      invariant PassOver(start, es[..i], stage) == Ok(tc.State())
    {
      assert es[..i + 1][..i] == es[..i];
      r := AddEntry(tc, es[i], stage);
      if r.Err? {
        PassOverErr(start, es, i + 1, stage);
        return;
      }
      i := i + 1;
    }
    assert es[..i] == es;
    return Ok(());
  }

  /** `AddToDB`: three passes over the base requests. */
  method AddToDB(tc: TransportCatalogue, es: seq<Node>) returns (r: Result<(), ReadError>)
    requires tc.Inv()
    modifies tc
    ensures tc.Inv()
    ensures r.Ok? <==> Ingest(old(tc.State()), es).Ok?
    ensures r.Ok? ==> tc.State() == Ingest(old(tc.State()), es).value
  {
    ghost var target := Ingest(tc.State(), es);
    var stage := 0;
    while stage < 3
      invariant 0 <= stage <= 3 && tc.Inv()
      invariant Passes(tc.State(), es, stage) == target
    {
      r := Pass(tc, es, stage);
      if r.Err? {
        return;
      }
      stage := stage + 1;
    }
    return Ok(());
  }

  // ---------------------------------------------------------------------
  // Colours.

  /** An 8-bit colour component. */
  type Byte = x: int | 0 <= x < 256

  /** `static_cast<uint8_t>` of an `int`: the value modulo 256. */
  function ByteCast(i: int32): (r: Byte)
    ensures 0 <= i < 256 ==> r == i as int
  {
    (i as int) % 256
  }

  /** `svg::Color`: none (`std::monostate`), a named colour, RGB, or RGB with an opacity. */
  datatype Color = NoColor | Named(name: string) | Rgb(red: Byte, green: Byte, blue: Byte)
                 | Rgba(red: Byte, green: Byte, blue: Byte, opacity: real)

  /**
   * `ConvertJSONColorToSVG`: a string is a named colour; an array of three
   * ints is RGB, of three ints and a number RGBA; anything else is no
   * colour. A three- or four-element array of other elements throws.
   */
  function ConvertColor(n: Node): (r: Result<Color, ReadError>) {
    if n.Str? then Ok(Named(n.s))
    else if n.Array? && |n.items| == 3 then
      if n.items[0].Int? && n.items[1].Int? && n.items[2].Int?
      then Ok(Rgb(ByteCast(n.items[0].i), ByteCast(n.items[1].i), ByteCast(n.items[2].i)))
      else Err(WrongType)
    else if n.Array? && |n.items| == 4 then
      if n.items[0].Int? && n.items[1].Int? && n.items[2].Int? && IsDouble(n.items[3])
      then Ok(Rgba(ByteCast(n.items[0].i), ByteCast(n.items[1].i), ByteCast(n.items[2].i), AsDouble(n.items[3]).value))
      else Err(WrongType)
    else Ok(NoColor)
  }

  /** The JSON form of a colour, as the render settings write it. */
  function ColorNode(c: Color): Node {
    match c
    case NoColor => Null
    case Named(name) => Str(name)
    case Rgb(r, g, b) => Array([Int(r as int32), Int(g as int32), Int(b as int32)])
    case Rgba(r, g, b, o) => Array([Int(r as int32), Int(g as int32), Int(b as int32), Double(o)])
  }

  /** Every colour is read back from its JSON form. */
  lemma {:induction false} ColorRoundTrip(c: Color)
    ensures ConvertColor(ColorNode(c)) == Ok(c)
  {
    match c {
      case NoColor =>
      case Named(_) =>
      case Rgb(r, g, b) =>
        assert ByteCast(r as int32) == r && ByteCast(g as int32) == g && ByteCast(b as int32) == b;
      case Rgba(r, g, b, o) =>
        assert ByteCast(r as int32) == r && ByteCast(g as int32) == g && ByteCast(b as int32) == b;
    }
  }

  /**
   * Which colour a node decodes to: a named colour exactly for a string,
   * RGB and RGBA exactly for three- and four-element arrays of the right
   * element types, components taken modulo 256, and no colour for every
   * other node.
   */
  lemma {:induction false} ConvertColorSpec(n: Node)
    ensures ConvertColor(n).Ok? && ConvertColor(n).value.Named? <==> n.Str?
    ensures ConvertColor(n).Ok? && ConvertColor(n).value.NoColor? <==> !n.Str? && !(n.Array? && 3 <= |n.items| <= 4)
    ensures ConvertColor(n).Ok? && ConvertColor(n).value.Rgb? <==>
              n.Array? && |n.items| == 3 && n.items[0].Int? && n.items[1].Int? && n.items[2].Int?
    ensures ConvertColor(n).Ok? && ConvertColor(n).value.Rgba? <==>
              n.Array? && |n.items| == 4 && n.items[0].Int? && n.items[1].Int? && n.items[2].Int? && IsDouble(n.items[3])
    ensures ConvertColor(n).Ok? && (ConvertColor(n).value.Rgb? || ConvertColor(n).value.Rgba?) ==>
              var c := ConvertColor(n).value;
              && c.red == n.items[0].i as int % 256 && c.green == n.items[1].i as int % 256 && c.blue == n.items[2].i as int % 256
  {
  }

  // ---------------------------------------------------------------------
  // Answers to stat requests.

  /** `static_cast<int>` of a count: the value modulo 2^32, read as signed. */
  function IntCast(n: int): (r: int32)
    ensures -0x8000_0000 <= n < 0x8000_0000 ==> r as int == n
    ensures (r as int - n) % 0x1_0000_0000 == 0
  {
    var m := n % 0x1_0000_0000;
    if m < 0x8000_0000 then m as int32 else (m - 0x1_0000_0000) as int32
  }

  /** The answer to a request about something that does not exist. */
  function NotFoundAnswer(id: int32): Node {
    Dict(map["request_id" := Int(id), "error_message" := Str("not found")])
  }

  function StrNodes(names: seq<string>): (r: seq<Node>)
    ensures |r| == |names| && forall j :: 0 <= j < |names| ==> r[j] == Str(names[j])
  {
    seq(|names|, j requires 0 <= j < |names| => Str(names[j]))
  }

  /** `ProcessStopQuery` once the handler has answered: the sorted bus names, possibly none. */
  function StopAnswer(info: BusesInfo, id: int32): Node {
    match info
    case StopNotExists => NotFoundAnswer(id)
    case NoBuses => Dict(map["buses" := Array([]), "request_id" := Int(id)])
    case Buses(names) => Dict(map["buses" := Array(StrNodes(names)), "request_id" := Int(id)])
  }

  /** The cached curvature: 1 for a route of fewer than two stops, else `geo` of the route. */
  function CurvatureOf(route: Route, geo: Route -> real): real {
    if route.curvature.Unit? then 1.0 else geo(route)
  }

  /** `ProcessBusQuery` once the handler has answered. */
  function BusAnswer(info: RouteInfo, geo: Route -> real, id: int32): Node {
    match info
    case RouteNotExists => NotFoundAnswer(id)
    case RouteFound(route) =>
      Dict(map[
        "curvature" := Double(CurvatureOf(route, geo)),
        "request_id" := Int(id),
        "route_length" := Int(IntCast(route.roadLength)),
        "stop_count" := Int(IntCast(|route.stops|)),
        "unique_stop_count" := Int(IntCast(route.uniqueStops))])
  }

  /** `ProcessMapQuery` once the map has been rendered to `svg`. */
  function MapAnswer(svg: string, id: int32): Node {
    Dict(map["map" := Str(svg), "request_id" := Int(id)])
  }

  /** One leg of an itinerary: a ride on a bus or a wait at a stop. */
  function ItemNode(it: Router.RouteItem): Node {
    if it.kind == Router.Travel then
      Dict(map["type" := Str("Bus"), "bus" := Str(it.name), "span_count" := Int(IntCast(it.spanCount)), "time" := Double(it.time)])
    else
      Dict(map["type" := Str("Wait"), "stop_name" := Str(it.name), "time" := Double(it.time)])
  }

  function ItemNodes(items: seq<Router.RouteItem>): (r: seq<Node>)
    ensures |r| == |items| && forall j :: 0 <= j < |items| ==> r[j] == ItemNode(items[j])
  {
    seq(|items|, j requires 0 <= j < |items| => ItemNode(items[j]))
  }

  /** `ProcessRouteQuery` once the router has answered. */
  function RouteAnswer(data: Router.RouteData, id: int32): Node {
    if !data.founded then NotFoundAnswer(id)
    else Dict(map["request_id" := Int(id), "total_time" := Double(data.totalTime), "items" := Array(ItemNodes(data.items))])
  }

  /** Reading a leg back from its answer: the inverse of `ItemNode`. */
  function ItemOfNode(n: Node): Option<Router.RouteItem> {
    if !n.Dict? || "type" !in n.entries || "time" !in n.entries || !n.entries["time"].Double? then None
    else
      var m := n.entries;
      if m["type"] == Str("Bus") && "bus" in m && m["bus"].Str? && "span_count" in m && m["span_count"].Int? then
        Some(Router.RouteItem(m["bus"].s, m["span_count"].i as int, m["time"].d, Router.Travel))
      else if m["type"] == Str("Wait") && "stop_name" in m && m["stop_name"].Str? then
        Some(Router.RouteItem(m["stop_name"].s, 0, m["time"].d, Router.Wait))
      else None
  }

  /**
   * No leg loses information in its answer: a WAIT leg (whose span is 0)
   * and a TRAVEL leg whose span fits an `int` are read back as they were.
   */
  lemma {:induction false} ItemNodeRoundTrip(it: Router.RouteItem)
    requires it.kind == Router.Wait ==> it.spanCount == 0
    requires -0x8000_0000 <= it.spanCount < 0x8000_0000
    ensures ItemOfNode(ItemNode(it)) == Some(it)
  {
  }

  /**
   * A found itinerary is answered with its total time and its legs in
   * order, each of which reads back as the leg it came from.
   */
  lemma {:induction false} RouteAnswerItems(data: Router.RouteData, id: int32)
    requires data.founded
    requires forall j :: 0 <= j < |data.items| ==> data.items[j].kind == Router.Wait ==> data.items[j].spanCount == 0
    requires forall j :: 0 <= j < |data.items| ==> -0x8000_0000 <= data.items[j].spanCount < 0x8000_0000
    ensures var m := RouteAnswer(data, id).entries;
            && m["request_id"] == Int(id) && m["total_time"] == Double(data.totalTime)
            && |m["items"].items| == |data.items|
            && forall j :: 0 <= j < |data.items| ==> ItemOfNode(m["items"].items[j]) == Some(data.items[j])
  {
    forall j | 0 <= j < |data.items|
      ensures ItemOfNode(ItemNodes(data.items)[j]) == Some(data.items[j])
    {
      ItemNodeRoundTrip(data.items[j]);
    }
  }

  /** The Wait legs that the router produces carry no span, so its answers read back whole when every span fits an `int`. */
  lemma {:induction false} ItineraryAnswer(db: Db, s: Router.Settings, p: seq<nat>, id: int32)
    requires Valid(db) && s.busVelocity != 0
    requires forall i :: 0 <= i < |p| ==> p[i] < |Router.GraphEdges(db, s)|
    requires forall i :: 0 <= i < |p| ==> Router.Items(Router.GraphEdges(db, s), p)[i].spanCount < 0x8000_0000
    ensures var data := Router.Itinerary(Router.GraphEdges(db, s), Some(p));
            var m := RouteAnswer(data, id).entries;
            && |m["items"].items| == |p|
            && forall j :: 0 <= j < |p| ==> ItemOfNode(m["items"].items[j]) == Some(data.items[j])
  {
    var g := Router.GraphEdges(db, s);
    var data := Router.Itinerary(g, Some(p));
    Router.ItineraryLegs(db, s, p);
    RouteAnswerItems(data, id);
  }

  // ---------------------------------------------------------------------
  // The builder chains of the answers.

  /** `StartDict()`, then `Key(ks[i]).Value(vs[i])` for each pair, then `EndDict()`. */
  function DictCalls(ks: seq<string>, vs: seq<Node>): seq<JsonBuilder.Call>
    requires |ks| == |vs|
  {
    [JsonBuilder.StartDictCall] + JsonBuilder.PairCalls(ks, vs) + [JsonBuilder.EndDictCall]
  }

  /** What `Build()` returns at the end of a chain of builder calls. */
  function Built(calls: seq<JsonBuilder.Call>): Result<Node, JsonError> {
    match JsonBuilder.Run(JsonBuilder.Fresh(), calls)
    case Err(e) => Err(e)
    case Ok(st) => JsonBuilder.BuildStep(st)
  }

  lemma {:induction false} DictBuilt(ks: seq<string>, vs: seq<Node>)
    requires |ks| == |vs|
    ensures Built(DictCalls(ks, vs)) == Ok(Dict(JsonBuilder.WithPairs(map[], ks, vs)))
  {
    JsonBuilder.FlatDict(ks, vs);
  }

  lemma {:induction false} WithTwo(k0: string, k1: string, v0: Node, v1: Node)
    ensures JsonBuilder.WithPairs(map[], [k0, k1], [v0, v1]) == map[k0 := v0, k1 := v1]
  {
    var m1: map<string, Node> := map[k0 := v0];
    assert [k0, k1][1..] == [k1] && [v0, v1][1..] == [v1];
    assert JsonBuilder.WithPairs(map[], [k0, k1], [v0, v1]) == JsonBuilder.WithPairs(m1, [k1], [v1]);
    assert [k1][1..] == [] && [v1][1..] == [];
    assert JsonBuilder.WithPairs(m1, [k1], [v1]) == JsonBuilder.WithPairs(m1[k1 := v1], [], []);
  }

  /** The not-found chain of `ProcessStopQuery`, `ProcessBusQuery` and `ProcessRouteQuery` builds `NotFoundAnswer`. */
  lemma {:induction false} NotFoundBuilt(id: int32)
    ensures Built(DictCalls(["request_id", "error_message"], [Int(id), Str("not found")])) == Ok(NotFoundAnswer(id))
  {
    DictBuilt(["request_id", "error_message"], [Int(id), Str("not found")]);
    WithTwo("request_id", "error_message", Int(id), Str("not found"));
  }

  /** The chain of `ProcessStopQuery` for a known stop builds `StopAnswer`. */
  lemma {:induction false} StopAnswerBuilt(info: BusesInfo, id: int32)
    requires !info.StopNotExists?
    ensures var buses := if info.Buses? then StrNodes(info.names) else [];
            Built(DictCalls(["buses", "request_id"], [Array(buses), Int(id)])) == Ok(StopAnswer(info, id))
  {
    var buses := if info.Buses? then StrNodes(info.names) else [];
    DictBuilt(["buses", "request_id"], [Array(buses), Int(id)]);
    WithTwo("buses", "request_id", Array(buses), Int(id));
  }

  /** The chain of `ProcessMapQuery` builds `MapAnswer`. */
  lemma {:induction false} MapAnswerBuilt(svg: string, id: int32)
    ensures Built(DictCalls(["map", "request_id"], [Str(svg), Int(id)])) == Ok(MapAnswer(svg, id))
  {
    DictBuilt(["map", "request_id"], [Str(svg), Int(id)]);
    WithTwo("map", "request_id", Str(svg), Int(id));
  }

  /** The chain of `ProcessBusQuery` for a known route builds `BusAnswer`. */
  lemma {:induction false} BusAnswerBuilt(route: Route, geo: Route -> real, id: int32)
    ensures var ks := ["curvature", "request_id", "route_length", "stop_count", "unique_stop_count"];
            var vs := [Double(CurvatureOf(route, geo)), Int(id), Int(IntCast(route.roadLength)),
                       Int(IntCast(|route.stops|)), Int(IntCast(route.uniqueStops))];
            Built(DictCalls(ks, vs)) == Ok(BusAnswer(RouteFound(route), geo, id))
  {
    var ks := ["curvature", "request_id", "route_length", "stop_count", "unique_stop_count"];
    var vs := [Double(CurvatureOf(route, geo)), Int(id), Int(IntCast(route.roadLength)),
               Int(IntCast(|route.stops|)), Int(IntCast(route.uniqueStops))];
    DictBuilt(ks, vs);
    assert ks[1..] == ["request_id", "route_length", "stop_count", "unique_stop_count"];
    assert ks[1..][1..] == ["route_length", "stop_count", "unique_stop_count"];
    assert ks[1..][1..][1..] == ["stop_count", "unique_stop_count"];
    assert ks[1..][1..][1..][1..] == ["unique_stop_count"];
    assert ks[1..][1..][1..][1..][1..] == [];
    assert vs[1..][1..][1..][1..][1..] == [];
  }

  /** The chain of `ProcessRouteQuery` for a found itinerary builds `RouteAnswer`. */
  lemma {:induction false} RouteAnswerBuilt(data: Router.RouteData, id: int32)
    requires data.founded
    ensures var ks := ["request_id", "total_time", "items"];
            var vs := [Int(id), Double(data.totalTime), Array(ItemNodes(data.items))];
            Built(DictCalls(ks, vs)) == Ok(RouteAnswer(data, id))
  {
    var ks := ["request_id", "total_time", "items"];
    var vs := [Int(id), Double(data.totalTime), Array(ItemNodes(data.items))];
    DictBuilt(ks, vs);
    assert ks[1..] == ["total_time", "items"] && ks[1..][1..] == ["items"] && ks[1..][1..][1..] == [];
    assert vs[1..][1..][1..] == [];
  }

  // ---------------------------------------------------------------------
  // Answering the stat requests.

  /** What a stat request sees of the router: its vertex count, its edges and the WAIT vertex of each stop. */
  datatype RouterView = RouterView(vertexCount: nat, edges: seq<Router.Edge>, waitVertex: map<string, nat>)

  /**
   * What a stat request needs from outside the model: the rendered map,
   * the geographic curvature of a route, and the shortest-path engine.
   */
  datatype Env = Env(svg: string, geo: Route -> real, search: Router.PathSearch)

  /** `ProcessStopQuery`: the name is read, the handler asked, then the id read. */
  function StopRequest(db: Db, d: map<string, Node>): Result<Node, ReadError>
    requires Valid(db)
  {
    match StringAt(d, "name")
    case Err(e) => Err(e)
    case Ok(name) =>
      match IntAt(d, "id")
      case Err(e) => Err(e)
      case Ok(id) => Ok(StopAnswer(BusesForStop(db, name), id))
  }

  /** `ProcessBusQuery`. */
  function BusRequest(db: Db, geo: Route -> real, d: map<string, Node>): Result<Node, ReadError>
    requires Valid(db)
  {
    match StringAt(d, "name")
    case Err(e) => Err(e)
    case Ok(name) =>
      match IntAt(d, "id")
      case Err(e) => Err(e)
      case Ok(id) => Ok(BusAnswer(GetRouteInfo(db, name), geo, id))
  }

  /** `ProcessMapQuery`, given the rendered map. */
  function MapRequest(svg: string, d: map<string, Node>): Result<Node, ReadError> {
    match IntAt(d, "id")
    case Err(e) => Err(e)
    case Ok(id) => Ok(MapAnswer(svg, id))
  }

  /**
   * `ProcessRouteQuery` against a built router: both stop names are read,
   * each must be a stop (`vertexes_wait_.at` throws otherwise), the engine
   * is asked for a path between their WAIT vertices, then the id is read.
   */
  function RouteRequest(view: RouterView, search: Router.PathSearch, d: map<string, Node>): Result<Node, ReadError> {
    match StringAt(d, "from")
    case Err(e) => Err(e)
    case Ok(from) =>
      match StringAt(d, "to")
      case Err(e) => Err(e)
      case Ok(to) =>
        if from !in view.waitVertex || to !in view.waitVertex then Err(MissingKey)
        else
          var found := search(view.vertexCount, view.edges, view.waitVertex[from], view.waitVertex[to]);
          match IntAt(d, "id")
          case Err(e) => Err(e)
          case Ok(id) => Ok(RouteAnswer(Router.Itinerary(view.edges, found), id))
  }

  /** A request whose "type" is one of the four the front end answers. */
  predicate IsStat(q: Node) {
    && q.Dict? && "type" in q.entries
    && q.entries["type"] in {Str("Stop"), Str("Bus"), Str("Map"), Str("Route")}
  }

  /** A "Route" request: the only kind that builds the router's graph. */
  predicate IsRouteRequest(q: Node) {
    q.Dict? && "type" in q.entries && q.entries["type"] == Str("Route")
  }

  /**
   * One stat request: a request must be a dict; one without "type" is
   * skipped, as is one of an unknown type; a "type" that is not a string
   * throws.
   */
  function Response(db: Db, view: RouterView, env: Env, q: Node): (r: Result<Option<Node>, ReadError>)
    requires Valid(db)
    ensures !q.Dict? ==> r == Err(WrongType)
    ensures q.Dict? && "type" !in q.entries ==> r == Ok(None)
    ensures r.Ok? ==> (r.value.Some? <==> IsStat(q))
  {
    if !q.Dict? then Err(WrongType)
    else if "type" !in q.entries then Ok(None)
    else if !q.entries["type"].Str? then Err(WrongType)
    else
      var kind := q.entries["type"].s;
      var answer :=
        if kind == "Stop" then StopRequest(db, q.entries)
        else if kind == "Bus" then BusRequest(db, env.geo, q.entries)
        else if kind == "Map" then MapRequest(env.svg, q.entries)
        else RouteRequest(view, env.search, q.entries);
      if kind !in {"Stop", "Bus", "Map", "Route"} then Ok(None)
      else match answer
        case Err(e) => Err(e)
        case Ok(n) => Ok(Some(n))
  }

  /** `ParseRawJSONQueries` as a value: the answers of the requests in turn, or the first error. */
  function Responses(db: Db, view: RouterView, env: Env, qs: seq<Node>): Result<seq<Node>, ReadError>
    requires Valid(db)
    decreases |qs|
  {
    if qs == [] then Ok([])
    else match Responses(db, view, env, qs[..|qs| - 1])
      case Err(e) => Err(e)
      case Ok(out) =>
        match Response(db, view, env, qs[|qs| - 1])
        case Err(e) => Err(e)
        case Ok(None) => Ok(out)
        case Ok(Some(n)) => Ok(out + [n])
  }

  /** The number of stat requests among `qs`. */
  function StatCount(qs: seq<Node>): (r: nat)
    ensures r <= |qs|
    decreases |qs|
  {
    if qs == [] then 0
    else StatCount(qs[..|qs| - 1]) + (if IsStat(qs[|qs| - 1]) then 1 else 0)
  }

  /** The answers succeed exactly when every request does. */
  lemma {:induction false} ResponsesOk(db: Db, view: RouterView, env: Env, qs: seq<Node>)
    requires Valid(db)
    ensures Responses(db, view, env, qs).Ok? <==> forall j :: 0 <= j < |qs| ==> Response(db, view, env, qs[j]).Ok?
    decreases |qs|
  {
    if qs != [] {
      var front := qs[..|qs| - 1];
      ResponsesOk(db, view, env, front);
      assert forall j :: 0 <= j < |front| ==> front[j] == qs[j];
    }
  }

  /**
   * The answers come one per stat request, in request order: the request
   * at position `j` is answered at position `StatCount(qs[..j])`, and
   * requests of no known type add nothing.
   */
  lemma {:induction false} ResponsesInOrder(db: Db, view: RouterView, env: Env, qs: seq<Node>)
    requires Valid(db)
    ensures Responses(db, view, env, qs).Ok? ==>
              var out := Responses(db, view, env, qs).value;
              && |out| == StatCount(qs)
              && forall j :: 0 <= j < |qs| && IsStat(qs[j]) ==>
                   StatCount(qs[..j]) < |out| && Response(db, view, env, qs[j]) == Ok(Some(out[StatCount(qs[..j])]))
    decreases |qs|
  {
    if qs != [] && Responses(db, view, env, qs).Ok? {
      var front := qs[..|qs| - 1];
      ResponsesInOrder(db, view, env, front);
      var before := Responses(db, view, env, front).value;
      var out := Responses(db, view, env, qs).value;
      forall j | 0 <= j < |qs| && IsStat(qs[j])
        ensures StatCount(qs[..j]) < |out| && Response(db, view, env, qs[j]) == Ok(Some(out[StatCount(qs[..j])]))
      {
        if j < |front| {
          assert front[j] == qs[j] && front[..j] == qs[..j];
        } else {
          assert qs[..j] == front;
        }
      }
    }
  }

  /** Requests other than "Route" never look at the router. */
  predicate RouteFree(qs: seq<Node>) {
    forall j :: 0 <= j < |qs| ==> !IsRouteRequest(qs[j])
  }

  lemma {:induction false} ResponsesIgnoreRouter(db: Db, v1: RouterView, v2: RouterView, env: Env, qs: seq<Node>)
    requires Valid(db) && RouteFree(qs)
    ensures Responses(db, v1, env, qs) == Responses(db, v2, env, qs)
    decreases |qs|
  {
    if qs != [] {
      var front := qs[..|qs| - 1];
      assert RouteFree(front) by {
        assert forall j :: 0 <= j < |front| ==> front[j] == qs[j];
      }
      ResponsesIgnoreRouter(db, v1, v2, env, front);
      assert !IsRouteRequest(qs[|qs| - 1]);
    }
  }

  lemma {:induction false} ResponsesStep(db: Db, view: RouterView, env: Env, qs: seq<Node>, i: nat, out: seq<Node>)
    requires Valid(db) && i < |qs| && Responses(db, view, env, qs[..i]) == Ok(out)
    ensures Responses(db, view, env, qs[..i + 1]) ==
              match Response(db, view, env, qs[i])
              case Err(e) => Err(e)
              case Ok(None) => Ok(out)
              case Ok(Some(n)) => Ok(out + [n])
  {
    assert qs[..i + 1][..i] == qs[..i];
  }

  lemma {:induction false} RouteFreeStep(qs: seq<Node>, i: nat)
    requires i < |qs|
    ensures RouteFree(qs[..i]) && !IsRouteRequest(qs[i]) ==> RouteFree(qs[..i + 1])
  {
    if RouteFree(qs[..i]) && !IsRouteRequest(qs[i]) {
      assert forall j :: 0 <= j < i ==> qs[..i][j] == qs[j];
      assert forall j :: 0 <= j <= i ==> qs[..i + 1][j] == qs[j];
    }
  }

  lemma {:induction false} RouteFreePrefix(qs: seq<Node>, i: nat)
    requires i < |qs| && RouteFree(qs)
    ensures RouteFree(qs[..i]) && !IsRouteRequest(qs[i])
  {
    assert forall j :: 0 <= j < i ==> qs[..i][j] == qs[j];
  }

  /** The first error ends the answering: an error in a prefix is the error of the whole. */
  lemma {:induction false} ResponsesErr(db: Db, view: RouterView, env: Env, qs: seq<Node>, n: nat)
    requires Valid(db) && n <= |qs|
    requires Responses(db, view, env, qs[..n]).Err?
    ensures Responses(db, view, env, qs) == Responses(db, view, env, qs[..n])
    decreases |qs|
  {
    if n < |qs| {
      var front := qs[..|qs| - 1];
      assert front[..n] == qs[..n];
      ResponsesErr(db, view, env, front, n);
    } else {
      assert qs[..n] == qs;
    }
  }

  /** A request about an unknown stop or route, or between stops with no path, is answered "not found". */
  lemma {:induction false} NotFoundAnswers(db: Db, view: RouterView, env: Env, d: map<string, Node>)
    requires Valid(db)
    requires "id" in d && d["id"].Int?
    ensures "name" in d && d["name"].Str? && StopByName(db, d["name"].s).None? ==>
              StopRequest(db, d) == Ok(NotFoundAnswer(d["id"].i))
    ensures "name" in d && d["name"].Str? && (forall k :: 0 <= k < |db.routes| ==> db.routes[k].name != d["name"].s) ==>
              BusRequest(db, env.geo, d) == Ok(NotFoundAnswer(d["id"].i))
    ensures "from" in d && d["from"].Str? && "to" in d && d["to"].Str?
            && d["from"].s in view.waitVertex && d["to"].s in view.waitVertex
            && env.search(view.vertexCount, view.edges, view.waitVertex[d["from"].s], view.waitVertex[d["to"].s]).None? ==>
              RouteRequest(view, env.search, d) == Ok(NotFoundAnswer(d["id"].i))
  {
    if "name" in d && d["name"].Str? && (forall k :: 0 <= k < |db.routes| ==> db.routes[k].name != d["name"].s) {
      assert GetRouteInfo(db, d["name"].s) == RouteNotExists;
    }
  }

  /** A known stop served by no bus is answered with an empty list, not "not found". */
  lemma {:induction false} StopWithoutBuses(db: Db, d: map<string, Node>)
    requires Valid(db)
    requires "id" in d && d["id"].Int? && "name" in d && d["name"].Str?
    requires StopByName(db, d["name"].s).Some? && ServingRoutes(db, |db.routes|, d["name"].s) == []
    ensures StopRequest(db, d) == Ok(Dict(map["buses" := Array([]), "request_id" := d["id"]]))
  {
  }

  // ---------------------------------------------------------------------
  // The request loop, against the handler and the router objects.

  /** What the requests see of the router object now. */
  function ViewOf(tr: Router.TransportRouter): RouterView
    reads tr
  {
    RouterView(tr.vertexCount, tr.edges, tr.waitVertex)
  }

  /** `ProcessStopQuery`: asks the handler for the stop's buses. */
  method ProcessStopQuery(rh: RequestHandler.RequestHandler, d: map<string, Node>) returns (r: Result<Node, ReadError>)
    requires rh.catalogue.Inv()
    ensures r == StopRequest(rh.catalogue.State(), d)
    ensures r.Ok? ==> r.value.Dict? && "request_id" in r.value.entries && r.value.entries["request_id"] == d["id"]
  {
    var name := StringAt(d, "name");
    if name.Err? {
      return Err(name.error);
    }
    var info := rh.GetBusesForStop(name.value);
    var id := IntAt(d, "id");
    if id.Err? {
      return Err(id.error);
    }
    return Ok(StopAnswer(info, id.value));
  }

  /** `ProcessBusQuery`: asks the handler for the route's statistics. */
  method ProcessBusQuery(rh: RequestHandler.RequestHandler, geo: Route -> real, d: map<string, Node>) returns (r: Result<Node, ReadError>)
    requires rh.catalogue.Inv()
    ensures r == BusRequest(rh.catalogue.State(), geo, d)
    ensures r.Ok? ==> r.value.Dict? && "request_id" in r.value.entries && r.value.entries["request_id"] == d["id"]
  {
    var name := StringAt(d, "name");
    if name.Err? {
      return Err(name.error);
    }
    var info := rh.GetRouteInfo(name.value);
    var id := IntAt(d, "id");
    if id.Err? {
      return Err(id.error);
    }
    return Ok(BusAnswer(info, geo, id.value));
  }

  /**
   * `ProcessRouteQuery`: once both names are read the router is asked,
   * which builds its graph on first use; a name that is not a stop throws
   * after the graph is built.
   */
  method ProcessRouteQuery(tr: Router.TransportRouter, search: Router.PathSearch, d: map<string, Node>)
      returns (r: Result<Node, ReadError>)
    requires tr.catalogue.Inv() && tr.Unbuilt()
    requires !tr.built ==> tr.settings.busVelocity != 0
    modifies tr
    ensures r == RouteRequest(ViewOf(tr), search, d)
    ensures tr.Unbuilt() && tr.settings == old(tr.settings) && tr.vertexCount == old(tr.vertexCount)
    ensures old(tr.built) ==> tr.built && ViewOf(tr) == old(ViewOf(tr))
    ensures !old(tr.built) && tr.built ==>
              tr.edges == Router.GraphEdges(tr.catalogue.State(), tr.settings) && tr.waitVertex == Router.VertexMap(tr.catalogue.stops, 0)
    ensures !tr.built ==> ViewOf(tr) == old(ViewOf(tr)) && r.Err?
  {
    var from := StringAt(d, "from");
    if from.Err? {
      return Err(from.error);
    }
    var to := StringAt(d, "to");
    if to.Err? {
      return Err(to.error);
    }
    var data := tr.CalculateRoute(from.value, to.value, search);
    if data.Err? {
      return Err(MissingKey);
    }
    var id := IntAt(d, "id");
    if id.Err? {
      return Err(id.error);
    }
    return Ok(RouteAnswer(data.value, id.value));
  }

  /** The router as the request loop found it. */
  datatype RouterStart = RouterStart(built: bool, view: RouterView, settings: Router.Settings, count: nat)

  function StartOf(tr: Router.TransportRouter): RouterStart
    reads tr
  {
    RouterStart(tr.built, ViewOf(tr), tr.settings, tr.vertexCount)
  }

  /**
   * What answering requests may do to the router, which started out as
   * `start` and is now `now`: build its graph from the catalogue `db` once,
   * and nothing else.
   */
  ghost predicate Kept(now: RouterStart, db: Db, start: RouterStart) {
    && now.settings == start.settings && now.count == start.count
    && (start.built ==> now.built && now.view == start.view)
    && (!start.built && now.built ==>
          start.settings.busVelocity != 0
          && now.view.edges == Router.GraphEdges(db, start.settings) && now.view.waitVertex == Router.VertexMap(db.stops, 0))
    && (!now.built ==> now.view == start.view)
  }

  ghost predicate RouterKept(tr: Router.TransportRouter, db: Db, start: RouterStart)
    reads tr
  {
    tr.Unbuilt() && Kept(StartOf(tr), db, start)
  }

  lemma {:induction false} KeptTrans(db: Db, start: RouterStart, mid: RouterStart, now: RouterStart)
    requires Kept(mid, db, start) && Kept(now, db, mid)
    ensures Kept(now, db, start)
  {
  }

  /** One turn of the request loop: dispatch on "type". */
  method ProcessQuery(rh: RequestHandler.RequestHandler, tr: Router.TransportRouter, env: Env, q: Node)
      returns (r: Result<Option<Node>, ReadError>)
    requires rh.catalogue.Inv() && tr.catalogue == rh.catalogue && tr.Unbuilt()
    requires !tr.built ==> tr.settings.busVelocity != 0
    modifies tr
    ensures r == Response(rh.catalogue.State(), ViewOf(tr), env, q)
    ensures RouterKept(tr, rh.catalogue.State(), old(StartOf(tr)))
    ensures !tr.built && IsRouteRequest(q) ==> r.Err?
    ensures !IsRouteRequest(q) ==> tr.built == old(tr.built) && ViewOf(tr) == old(ViewOf(tr))
  {
    if !q.Dict? {
      return Err(WrongType);
    }
    if "type" !in q.entries {
      return Ok(None);
    }
    if !q.entries["type"].Str? {
      return Err(WrongType);
    }
    var kind := q.entries["type"].s;
    var answer: Result<Node, ReadError>;
    if kind == "Stop" {
      answer := ProcessStopQuery(rh, q.entries);
    } else if kind == "Bus" {
      answer := ProcessBusQuery(rh, env.geo, q.entries);
    } else if kind == "Map" {
      answer := MapRequest(env.svg, q.entries);
    } else if kind == "Route" {
      answer := ProcessRouteQuery(tr, env.search, q.entries);
    } else {
      return Ok(None);
    }
    if answer.Err? {
      return Err(answer.error);
    }
    return Ok(Some(answer.value));
  }

  /** The request loop after `i` requests, `out` answered, with the router now `now` after starting as `start`. */
  ghost predicate AnsweringAt(now: RouterStart, db: Db, start: RouterStart, env: Env, queries: seq<Node>, i: nat, out: seq<Node>) {
    && i <= |queries| && Valid(db) && Kept(now, db, start)
    && (!now.built ==> RouteFree(queries[..i]))
    && (RouteFree(queries[..i]) ==> now.built == start.built && now.view == start.view)
    && Responses(db, now.view, env, queries[..i]) == Ok(out)
  }

  ghost predicate Answering(tr: Router.TransportRouter, db: Db, start: RouterStart, env: Env, queries: seq<Node>, i: nat, out: seq<Node>)
    reads tr
  {
    tr.Unbuilt() && AnsweringAt(StartOf(tr), db, start, env, queries, i, out)
  }

  /** The answers after one more request. */
  function NextOut(out: seq<Node>, step: Result<Option<Node>, ReadError>): seq<Node> {
    if step.Ok? && step.value.Some? then out + [step.value.value] else out
  }

  /** One turn of the request loop keeps the loop's invariant, or ends it with the answer to all requests. */
  lemma {:induction false} AnsweringStep(db: Db, start: RouterStart, mid: RouterStart, now: RouterStart, env: Env,
                                         queries: seq<Node>, i: nat, out: seq<Node>, step: Result<Option<Node>, ReadError>)
    requires i < |queries| && AnsweringAt(mid, db, start, env, queries, i, out) && Kept(now, db, mid)
    requires step == Response(db, now.view, env, queries[i])
    requires !now.built && IsRouteRequest(queries[i]) ==> step.Err?
    requires !IsRouteRequest(queries[i]) ==> now.built == mid.built && now.view == mid.view
    ensures step.Ok? ==> AnsweringAt(now, db, start, env, queries, i + 1, NextOut(out, step))
    ensures step.Err? ==> Kept(now, db, start) && Responses(db, now.view, env, queries) == Err(step.error)
    ensures step.Err? && RouteFree(queries) ==> now.built == start.built && now.view == start.view
  {
    KeptTrans(db, start, mid, now);
    if mid.view != now.view {
      ResponsesIgnoreRouter(db, mid.view, now.view, env, queries[..i]);
    }
    ResponsesStep(db, now.view, env, queries, i, out);
    RouteFreeStep(queries, i);
    if step.Err? {
      ResponsesErr(db, now.view, env, queries, i + 1);
      if RouteFree(queries) {
        RouteFreePrefix(queries, i);
      }
    }
  }

  /** One turn of the request loop: the next answer, or the first error as the answer to all of `queries`. */
  method AnswerNext(rh: RequestHandler.RequestHandler, tr: Router.TransportRouter, env: Env, queries: seq<Node>, i: nat,
                    out: seq<Node>, ghost db: Db, ghost start: RouterStart)
      returns (r: Result<seq<Node>, ReadError>)
    requires rh.catalogue.Inv() && tr.catalogue == rh.catalogue && db == rh.catalogue.State()
    requires !start.built ==> start.settings.busVelocity != 0
    requires i < |queries| && Answering(tr, db, start, env, queries, i, out)
    modifies tr
    ensures r.Ok? ==> Answering(tr, db, start, env, queries, i + 1, r.value)
    ensures r.Err? ==> RouterKept(tr, db, start) && r == Responses(db, ViewOf(tr), env, queries)
    ensures r.Err? && RouteFree(queries) ==> tr.built == start.built && ViewOf(tr) == start.view
  {
    ghost var mid := StartOf(tr);
    var step := ProcessQuery(rh, tr, env, queries[i]);
    AnsweringStep(db, start, mid, StartOf(tr), env, queries, i, out, step);
    if step.Err? {
      return Err(step.error);
    }
    return Ok(NextOut(out, step));
  }

  /**
   * `ParseRawJSONQueries`: the answers to the requests, in order, or the
   * first error. The router's graph is built by the first "Route" request
   * that reaches the router; every answer, before it or after, is the one
   * the final router gives.
   */
  method ParseRawJSONQueries(rh: RequestHandler.RequestHandler, tr: Router.TransportRouter, env: Env, queries: seq<Node>)
      returns (r: Result<seq<Node>, ReadError>)
    requires rh.catalogue.Inv() && tr.catalogue == rh.catalogue && tr.Unbuilt()
    requires !tr.built ==> tr.settings.busVelocity != 0
    modifies tr
    ensures r == Responses(rh.catalogue.State(), ViewOf(tr), env, queries)
    ensures RouterKept(tr, rh.catalogue.State(), old(StartOf(tr)))
    ensures RouteFree(queries) ==> tr.built == old(tr.built) && ViewOf(tr) == old(ViewOf(tr))
  {
    ghost var db := rh.catalogue.State();
    ghost var start := StartOf(tr);
    var out: seq<Node> := [];
    var i := 0;
    while i < |queries|
      invariant Answering(tr, db, start, env, queries, i, out)
    {
      var next := AnswerNext(rh, tr, env, queries, i, out, db, start);
      if next.Err? {
        return next;
      }
      out := next.value;
      i := i + 1;
    }
    assert queries[..i] == queries;
    return Ok(out);
  }
}
