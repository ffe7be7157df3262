/**
 * The line-format reader: queries of the form
 *   "Stop X: lat, lng"                       (add a stop)
 *   "Stop X: 3900m to Y, 1200m to Z"         (add distances from X)
 *   "Bus N: A - B - C" or "Bus N: A > B > A" (add a route)
 * are parsed with the `Strings` helpers and applied to the catalogue in
 * three phases: all stops, then all distances, then all routes.
 *
 * Text-to-number conversions (`stod`, `stoul`) are parameters.
 */
module InputReader {
  import opened Wrappers
  import opened Strings
  import opened Catalogue
  import opened Seqs

  datatype InputQueryType = NoOp | AddStop | AddRoute | AddStopsDistance

  datatype InputQuery = InputQuery(kind: InputQueryType, query: string)

  /** The numeric conversions the reader calls: `std::stod` and `std::stoul`. */
  datatype Conversions = Conversions(toReal: string -> real, toSize: string -> SizeT)

  // ---------------------------------------------------------------------
  // Stops.

  /** `ProcessQueryAddStop`: "name: lat lng" with the name trimmed. */
  function ParseStop(query: string, conv: Conversions): (r: Stop)
    ensures r.name == TrimString(Split(query, ':', 1).0)
    ensures exists a :: Framed(Split(query, ':', 1).0, a, r.name)
    ensures r.name == [] || (!IsSpace(r.name[0]) && !IsSpace(r.name[|r.name| - 1]))
  {
    var (head, tail) := Split(query, ':', 1);
    var name := TrimString(head);
    TrimStringSpec(head);
    var (lat, lng) := Split(TrimString(tail), ' ', 1);
    Stop(name, conv.toReal(Rstrip(lat)), conv.toReal(Lstrip(lng)))
  }

  // ---------------------------------------------------------------------
  // Distances.

  /** One "<d>m to <name>" clause: the distance, the name and the rest of the list. */
  function NextClause(rest: string, conv: Conversions): (r: (SizeT, string, string))
    requires rest != []
    ensures r.0 == conv.toSize(TrimString(Split(rest, 'm', 1).0))
    ensures r.1 == TrimString(Split(Split(Lstrip(Split(rest, 'm', 1).1), ' ', 1).1, ',', 1).0)
    ensures |r.2| < |rest| && r.2 == rest[|rest| - |r.2|..]
  {
    var afterNum := Split(rest, 'm', 1).1;
    var afterTo := Split(Lstrip(afterNum), ' ', 1).1;
    var more := Split(afterTo, ',', 1).1;
    ClauseRestSuffix(rest, afterNum, Lstrip(afterNum), afterTo, more, Lstrip(more));
    (conv.toSize(TrimString(Split(rest, 'm', 1).0)), TrimString(Split(afterTo, ',', 1).0), Lstrip(more))
  }

  /** What is left after a clause is a suffix of the list, shorter than it. */
  lemma {:induction false} ClauseRestSuffix(rest: string, afterNum: string, l1: string, afterTo: string, more: string, l2: string)
    requires rest != []
    requires afterNum == Split(rest, 'm', 1).1 && l1 == Lstrip(afterNum)
    requires afterTo == Split(l1, ' ', 1).1
    requires more == Split(afterTo, ',', 1).1 && l2 == Lstrip(more)
    ensures |l2| < |rest| && l2 == rest[|rest| - |l2|..]
  {
    assert |afterNum| < |rest| && afterNum == rest[|rest| - |afterNum|..] by {
      SplitRightIsSuffix(rest, 'm', 1);
    }
    assert |l1| <= |afterNum| && l1 == afterNum[|afterNum| - |l1|..] by {
      LstripSpec(afterNum);
    }
    assert |afterTo| <= |l1| && afterTo == l1[|l1| - |afterTo|..] by {
      SplitRightIsSuffix(l1, ' ', 1);
    }
    assert |more| <= |afterTo| && more == afterTo[|afterTo| - |more|..] by {
      SplitRightIsSuffix(afterTo, ',', 1);
    }
    assert |l2| <= |more| && l2 == more[|more| - |l2|..] by {
      LstripSpec(more);
    }
    SuffixChain(rest, afterNum, l1, afterTo, more, l2);
  }

  /** Five suffix steps, the first strict, make a strictly shorter suffix. */
  lemma {:induction false} SuffixChain(s0: string, s1: string, s2: string, s3: string, s4: string, s5: string)
    requires |s1| < |s0| && s1 == s0[|s0| - |s1|..]
    requires |s2| <= |s1| && s2 == s1[|s1| - |s2|..]
    requires |s3| <= |s2| && s3 == s2[|s2| - |s3|..]
    requires |s4| <= |s3| && s4 == s3[|s3| - |s4|..]
    requires |s5| <= |s4| && s5 == s4[|s4| - |s5|..]
    ensures |s5| < |s0| && s5 == s0[|s0| - |s5|..]
  {
    SuffixTrans(s2, s1, s0);
    SuffixTrans(s3, s2, s0);
    SuffixTrans(s4, s3, s0);
    SuffixTrans(s5, s4, s0);
  }

  /** The clauses of a distance list, in order. */
  function Clauses(rest: string, conv: Conversions): seq<(SizeT, string)>
    decreases |rest|
  {
    if rest == [] then []
    else
      var c := NextClause(rest, conv);
      [(c.0, c.1)] + Clauses(c.2, conv)
  }

  /**
   * Record the clauses from stop `from` in order, stopping at the first
   * destination that is not a stop.
   */
  function AddClauses(db: Db, from: StopId, cl: seq<(SizeT, string)>): (r: Db)
    requires Valid(db) && from < |db.stops|
    ensures Valid(r)
    ensures r.stops == db.stops && r.stopIndex == db.stopIndex && r.routes == db.routes && r.routeIndex == db.routeIndex
    decreases |cl|
  {
    if cl == [] then db
    else match StopByName(db, cl[0].1)
      case None => db
      case Some(to) => AddClauses(AfterAddDistance(db, Some(from), Some(to), cl[0].0), from, cl[1..])
  }

  /** How many leading clauses name a stop. */
  function KnownPrefix(index: map<string, StopId>, cl: seq<(SizeT, string)>): (k: nat)
    ensures k <= |cl|
    ensures forall t :: 0 <= t < k ==> cl[t].1 in index
    ensures k < |cl| ==> cl[k].1 !in index
  {
    if cl == [] || cl[0].1 !in index then 0 else 1 + KnownPrefix(index, cl[1..])
  }

  /** Only the known prefix of the clause list takes effect. */
  lemma {:induction false} AddClausesStopsAtUnknown(db: Db, from: StopId, cl: seq<(SizeT, string)>)
    requires Valid(db) && from < |db.stops|
    ensures AddClauses(db, from, cl) == AddClauses(db, from, cl[..KnownPrefix(db.stopIndex, cl)])
    decreases |cl|
  {
    var k := KnownPrefix(db.stopIndex, cl);
    if cl == [] || cl[0].1 !in db.stopIndex {
      assert cl[..k] == [];
    } else {
      var db1 := AfterAddDistance(db, Some(from), Some(db.stopIndex[cl[0].1]), cl[0].0);
      assert AddClauses(db, from, cl) == AddClauses(db1, from, cl[1..]);
      assert db1.stopIndex == db.stopIndex && k == 1 + KnownPrefix(db.stopIndex, cl[1..]);
      AddClausesStopsAtUnknown(db1, from, cl[1..]);
      assert cl[..k][0] == cl[0] && cl[..k][1..] == cl[1..][..k - 1];
      assert AddClauses(db, from, cl[..k]) == AddClauses(db1, from, cl[..k][1..]);
    }
  }

  /** Entries already in the table keep their value. */
  lemma {:induction false} AddClausesKeeps(db: Db, from: StopId, cl: seq<(SizeT, string)>)
    requires Valid(db) && from < |db.stops|
    ensures forall p :: p in db.distances ==> p in AddClauses(db, from, cl).distances && AddClauses(db, from, cl).distances[p] == db.distances[p]
    decreases |cl|
  {
    if cl != [] && cl[0].1 in db.stopIndex {
      var db1 := AfterAddDistance(db, Some(from), Some(db.stopIndex[cl[0].1]), cl[0].0);
      AddDistanceSpec(db, Some(from), Some(db.stopIndex[cl[0].1]), cl[0].0);
      AddClausesKeeps(db1, from, cl[1..]);
    }
  }

  /** Every pair named in the known prefix has a distance afterwards (the first one written for it). */
  lemma {:induction false} AddClausesRecords(db: Db, from: StopId, cl: seq<(SizeT, string)>)
    requires Valid(db) && from < |db.stops|
    ensures forall t :: 0 <= t < KnownPrefix(db.stopIndex, cl) ==> (from, db.stopIndex[cl[t].1]) in AddClauses(db, from, cl).distances
    decreases |cl|
  {
    if cl != [] && cl[0].1 in db.stopIndex {
      var to := db.stopIndex[cl[0].1];
      var db1 := AfterAddDistance(db, Some(from), Some(to), cl[0].0);
      var res := AddClauses(db1, from, cl[1..]);
      assert AddClauses(db, from, cl) == res;
      assert KnownPrefix(db.stopIndex, cl) == 1 + KnownPrefix(db1.stopIndex, cl[1..]);
      assert (from, to) in res.distances by {
        AddDistanceSpec(db, Some(from), Some(to), cl[0].0);
        AddClausesKeeps(db1, from, cl[1..]);
      }
      AddClausesRecords(db1, from, cl[1..]);
      forall t | 1 <= t < KnownPrefix(db.stopIndex, cl)
        ensures (from, db.stopIndex[cl[t].1]) in res.distances
      {
        assert cl[t] == cl[1..][t - 1];
      }
    }
  }

  /** `ProcessQueryAddStopsDistance` as a state transition: nothing for an unknown origin. */
  function AfterDistanceQuery(db: Db, query: string, conv: Conversions): (r: Db)
    requires Valid(db)
    ensures Valid(r)
    ensures TrimString(Split(query, ':', 1).0) !in db.stopIndex ==> r == db
  {
    var (head, tail) := Split(query, ':', 1);
    match StopByName(db, TrimString(head))
    case None => db
    case Some(from) => AddClauses(db, from, Clauses(TrimString(tail), conv))
  }

  /** `ProcessQueryAddStopsDistance`: walk the clause list, adding each distance, until an unknown name. */
  method ProcessQueryAddStopsDistance(tc: TransportCatalogue, query: string, conv: Conversions)
    requires tc.Inv()
    modifies tc
    ensures tc.Inv()
    ensures tc.State() == AfterDistanceQuery(old(tc.State()), query, conv)
  {
    var (head, tail) := Split(query, ':', 1);
    var name := TrimString(head);
    var rest := TrimString(tail);
    var fromOpt := StopByName(tc.State(), name);
    if fromOpt.None? {
      return;
    }
    var from := fromOpt.value;
    ghost var target := AfterDistanceQuery(tc.State(), query, conv);
    assert target == AddClauses(tc.State(), from, Clauses(rest, conv));
    while rest != []
      invariant tc.Inv() && from < |tc.stops|
      invariant AddClauses(tc.State(), from, Clauses(rest, conv)) == target
      decreases |rest|
    {
      var (num, afterNum) := Split(rest, 'm', 1);
      var d := conv.toSize(TrimString(num));
      var (_, afterTo) := Split(Lstrip(afterNum), ' ', 1);
      var (toName, more) := Split(afterTo, ',', 1);
      assert NextClause(rest, conv) == (d, TrimString(toName), Lstrip(more));
      assert Clauses(rest, conv) == [(d, TrimString(toName))] + Clauses(Lstrip(more), conv);
      var toOpt := StopByName(tc.State(), TrimString(toName));
      if toOpt.None? {
        return;
      }
      tc.AddDistance(fromOpt, toOpt, d);
      rest := Lstrip(more);
    }
  }

  // ---------------------------------------------------------------------
  // Routes.

  /** '>' separates the stops of a circular route; anything else is an out-and-back route. */
  function Delimiter(stopsPart: string): (r: char)
    ensures r == '>' <==> '>' in stopsPart
    ensures r == '>' || r == '-'
  {
    var p := Find(stopsPart, '>', 0);
    if p == |stopsPart| then
      assert forall i :: 0 <= i < |stopsPart| ==> stopsPart[i] != '>';
      '-'
    else '>'
  }

  /** The names of a stop list cut at `delim`, each stripped of its surrounding blanks. */
  function StopNames(rest: string, delim: char): seq<string>
    decreases |rest|
  {
    if rest == [] then []
    else
      var (name, more) := Split(rest, delim, 1);
      [Rstrip(name)] + StopNames(Lstrip(more), delim)
  }

  function Reverse<T>(s: seq<T>): (r: seq<T>)
    ensures |r| == |s|
    ensures forall k :: 0 <= k < |s| ==> r[k] == s[|s| - 1 - k]
  {
    if s == [] then [] else Reverse(s[1..]) + [s[0]]
  }

  /** An out-and-back route lists its stops there and back: s0 .. s(n-1), s(n-2) .. s0. */
  function Canonical(names: seq<string>, delim: char): seq<string> {
    if delim == '-' && |names| > 1 then names + Reverse(names[..|names| - 1]) else names
  }

  /** The doubled list has 2n-1 stops, reads the same both ways, and ends where it starts. */
  lemma {:induction false} CanonicalShape(names: seq<string>)
    requires |names| > 1
    ensures var c := Canonical(names, '-');
            && |c| == 2 * |names| - 1
            && c[..|names|] == names
            && (forall k :: 0 <= k < |c| ==> c[k] == c[|c| - 1 - k])
            && c[0] == c[|c| - 1]
  {
    var c := Canonical(names, '-');
    var n := |names|;
    forall k | 0 <= k < |c|
      ensures c[k] == c[|c| - 1 - k]
    {
      if k < n {
        assert c[k] == names[k];
        if k < n - 1 {
          assert c[|c| - 1 - k] == Reverse(names[..n - 1])[n - 2 - k];
        }
      } else {
        assert c[k] == Reverse(names[..n - 1])[k - n];
        assert c[|c| - 1 - k] == names[|c| - 1 - k];
      }
    }
  }

  /** The ids of the names the catalogue knows, in list order. */
  function KnownIds(db: Db, names: seq<string>): (r: seq<StopId>)
    requires Valid(db)
    ensures |r| <= |names|
  {
    if names == [] then [] else KnownHead(db, names[0]) + KnownIds(db, names[1..])
  }

  /** The id of one name, if the catalogue knows it. */
  function KnownHead(db: Db, name: string): seq<StopId>
    requires Valid(db)
  {
    match StopByName(db, name) case None => [] case Some(x) => [x]
  }

  /** Only ids of catalogue stops are kept. */
  lemma {:induction false} KnownIdsKnown(db: Db, names: seq<string>)
    requires Valid(db)
    ensures StopsKnown(db, KnownIds(db, names))
    decreases |names|
  {
    if names != [] {
      KnownIdsKnown(db, names[1..]);
    }
  }

  /** Moving the name at `k` from the stretch still to look up to the ids found so far. */
  lemma {:induction false} KnownIdsAt(db: Db, list: seq<string>, ids: seq<StopId>, k: nat)
    requires Valid(db) && k < |list|
    ensures ids + KnownIds(db, list[k..]) == (ids + KnownHead(db, list[k])) + KnownIds(db, list[k + 1..])
  {
    assert list[k..][0] == list[k] && list[k..][1..] == list[k + 1..];
    var head, rest := KnownHead(db, list[k]), KnownIds(db, list[k + 1..]);
    assert KnownIds(db, list[k..]) == head + rest;
    assert (ids + head) + rest == ids + (head + rest);
  }

  /** Every id kept is the id of one of the names. */
  lemma {:induction false} KnownIdsFromNames(db: Db, names: seq<string>)
    requires Valid(db)
    ensures forall t :: 0 <= t < |KnownIds(db, names)| ==>
              exists u :: 0 <= u < |names| && StopByName(db, names[u]) == Some(KnownIds(db, names)[t])
  {
    if names != [] {
      var tail := KnownIds(db, names[1..]);
      KnownIdsFromNames(db, names[1..]);
      var r := KnownIds(db, names);
      forall t | 0 <= t < |r|
        ensures exists u :: 0 <= u < |names| && StopByName(db, names[u]) == Some(r[t])
      {
        if StopByName(db, names[0]).Some? && t == 0 {
          assert StopByName(db, names[0]) == Some(r[t]);
        } else {
          var t' := if StopByName(db, names[0]).Some? then t - 1 else t;
          assert r[t] == tail[t'];
          var u :| 0 <= u < |names[1..]| && StopByName(db, names[1..][u]) == Some(tail[t']);
          assert names[u + 1] == names[1..][u];
        }
      }
    } else {
      assert KnownIds(db, names) == [];
    }
  }

  /** When every name is known, each keeps its place. */
  lemma {:induction false} KnownIdsAllKnown(db: Db, names: seq<string>)
    requires Valid(db)
    requires forall u :: 0 <= u < |names| ==> names[u] in db.stopIndex
    ensures |KnownIds(db, names)| == |names|
    ensures forall u :: 0 <= u < |names| ==> KnownIds(db, names)[u] == db.stopIndex[names[u]]
  {
    if names != [] {
      KnownIdsAllKnown(db, names[1..]);
    }
  }

  /** Unknown names are dropped and do not disturb the others. */
  lemma {:induction false} KnownIdsSkipsUnknown(db: Db, a: seq<string>, x: string, b: seq<string>)
    requires Valid(db) && x !in db.stopIndex
    ensures KnownIds(db, a + [x] + b) == KnownIds(db, a + b)
    decreases |a|
  {
    if a == [] {
      assert a + [x] + b == [x] + b && a + b == b;
      assert ([x] + b)[0] == x && ([x] + b)[1..] == b;
      assert StopByName(db, x) == None;
    } else {
      KnownIdsSkipsUnknown(db, a[1..], x, b);
      assert (a + [x] + b)[1..] == a[1..] + [x] + b;
      assert (a + b)[1..] == a[1..] + b;
    }
  }

  /** The route `ProcessQueryAddRoute` builds from a query: name, known stops, not circular. */
  function ParseRoute(db: Db, query: string): (r: (string, seq<StopId>))
    requires Valid(db)
    ensures r.0 == TrimString(Split(query, ':', 1).0)
    ensures exists a :: Framed(Split(query, ':', 1).0, a, r.0)
    ensures StopsKnown(db, r.1)
  {
    var (head, tail) := Split(query, ':', 1);
    TrimStringSpec(head);
    var part := TrimString(tail);
    var delim := Delimiter(part);
    var names := Canonical(StopNames(part, delim), delim);
    KnownIdsKnown(db, names);
    (TrimString(head), KnownIds(db, names))
  }

  /** `ProcessQueryAddRoute`: cut the stop list, double an out-and-back list, keep the known stops. */
  method ProcessQueryAddRoute(tc: TransportCatalogue, query: string) returns (name: string, ids: seq<StopId>)
    requires tc.Inv()
    ensures (name, ids) == ParseRoute(tc.State(), query)
  {
    var (head, tail) := Split(query, ':', 1);
    name := TrimString(head);
    var part := TrimString(tail);
    var delim := if Find(part, '>', 0) == |part| then '-' else '>';
    assert delim == Delimiter(part);
    var list := CutStopList(part, delim);
    if delim == '-' && |list| > 1 {
      list := AddReturnLeg(list);
    }
    ids := ResolveStops(tc, list);
  }

  /** The loop that cuts the stop list at each delimiter. */
  method CutStopList(part: string, delim: char) returns (list: seq<string>)
    ensures list == StopNames(part, delim)
  {
    var rest := part;
    list := [];
    while rest != []
      invariant list + StopNames(rest, delim) == StopNames(part, delim)
      decreases |rest|
    {
      var (stop, more) := Split(rest, delim, 1);
      assert StopNames(rest, delim) == [Rstrip(stop)] + StopNames(Lstrip(more), delim);
      list := list + [Rstrip(stop)];
      rest := Lstrip(more);
    }
  }

  /** The loop that appends the stops in reverse, all but the last one. */
  method AddReturnLeg(there: seq<string>) returns (list: seq<string>)
    requires |there| > 1
    ensures list == Canonical(there, '-')
  {
    list := there;
    var i := |there| - 2;
    while i >= 0
      invariant -1 <= i <= |there| - 2
      invariant list == there + Reverse(there[i + 1..|there| - 1])
    {
      assert there[i..|there| - 1] == [there[i]] + there[i + 1..|there| - 1];
      list := list + [list[i]];
      i := i - 1;
    }
    assert there[0..|there| - 1] == there[..|there| - 1];
  }

  /** The loop that looks each name up and keeps the stops found. */
  method ResolveStops(tc: TransportCatalogue, list: seq<string>) returns (ids: seq<StopId>)
    requires tc.Inv()
    ensures ids == KnownIds(tc.State(), list)
  {
    ghost var db := tc.State();
    ids := [];
    var k := 0;
    assert [] + KnownIds(db, list[0..]) == KnownIds(db, list) by { assert list[0..] == list; }
    while k < |list|
      invariant 0 <= k <= |list|
      invariant ids + KnownIds(db, list[k..]) == KnownIds(db, list)
    {
      var found := StopByName(tc.State(), list[k]);
      KnownIdsAt(db, list, ids, k);
      assert KnownHead(db, list[k]) == if found.Some? then [found.value] else [];
      if found.Some? {
        ids := ids + [found.value];
      } else {
        assert ids + [] == ids;
      }
      k := k + 1;
    }
    assert list[k..] == [] && KnownIds(db, []) == [] && ids + [] == ids;
  }


  // ---------------------------------------------------------------------
  // The three phases.

  /** The queries of one kind, in input order. */
  function OfKind(qs: seq<InputQuery>, kind: InputQueryType): (r: seq<InputQuery>)
    ensures |r| <= |qs|
  {
    if qs == [] then []
    else (if qs[0].kind == kind then [qs[0]] else []) + OfKind(qs[1..], kind)
  }

  /** The order in which the queries take effect: stops, then distances, then routes. */
  function Phased(qs: seq<InputQuery>): seq<InputQuery> {
    OfKind(qs, AddStop) + OfKind(qs, AddStopsDistance) + OfKind(qs, AddRoute)
  }

  /** The effect of one query on its own. */
  function ApplyQuery(db: Db, q: InputQuery, conv: Conversions): (r: Db)
    requires Valid(db)
    ensures Valid(r)
  {
    match q.kind
    case NoOp => db
    case AddStop => AfterAddStop(db, ParseStop(q.query, conv))
    case AddStopsDistance => AfterDistanceQuery(db, q.query, conv)
    case AddRoute =>
      var route := ParseRoute(db, q.query);
      AfterAddRoute(db, route.0, route.1, false)
  }

  /** The effect of a list of queries applied one after another. */
  function ApplyAll(db: Db, qs: seq<InputQuery>, conv: Conversions): (r: Db)
    requires Valid(db)
    ensures Valid(r)
    decreases |qs|
  {
    if qs == [] then db else ApplyAll(ApplyQuery(db, qs[0], conv), qs[1..], conv)
  }

  lemma {:induction false} ApplyAllAppend(db: Db, a: seq<InputQuery>, b: seq<InputQuery>, conv: Conversions)
    requires Valid(db)
    ensures ApplyAll(db, a + b, conv) == ApplyAll(ApplyAll(db, a, conv), b, conv)
    decreases |a|
  {
    if a == [] {
      AppendEmpty(b);
    } else {
      var db1 := ApplyQuery(db, a[0], conv);
      ConsAppend(a, b);
      assert ApplyAll(db, a + b, conv) == ApplyAll(db1, a[1..] + b, conv);
      assert ApplyAll(db, a, conv) == ApplyAll(db1, a[1..], conv);
      ApplyAllAppend(db1, a[1..], b, conv);
    }
  }

  lemma {:induction false} OfKindMembers(qs: seq<InputQuery>, kind: InputQueryType)
    ensures forall q :: q in OfKind(qs, kind) ==> q.kind == kind
    decreases |qs|
  {
    if qs != [] {
      OfKindMembers(qs[1..], kind);
    }
  }

  /** The queries of one kind, split at the first query. */
  lemma {:induction false} OfKindHead(qs: seq<InputQuery>, kind: InputQueryType)
    requires qs != []
    ensures multiset(OfKind(qs, kind)) == Own(qs[0], kind) + multiset(OfKind(qs[1..], kind))
  {
    var head := if qs[0].kind == kind then [qs[0]] else [];
    assert OfKind(qs, kind) == head + OfKind(qs[1..], kind);
  }

  /** `q` itself when it is of the given kind, nothing otherwise. */
  function Own(q: InputQuery, kind: InputQueryType): multiset<InputQuery> {
    if q.kind == kind then multiset{q} else multiset{}
  }

  /** Adding one element to exactly one of four parts adds it to their sum. */
  lemma {:induction false} SumStep(s: multiset<InputQuery>, d: multiset<InputQuery>, r: multiset<InputQuery>, n: multiset<InputQuery>,
                hs: multiset<InputQuery>, hd: multiset<InputQuery>, hr: multiset<InputQuery>, hn: multiset<InputQuery>,
                x: InputQuery)
    requires hs + hd + hr + hn == multiset{x}
    ensures (hs + s) + (hd + d) + (hr + r) + (hn + n) == multiset{x} + (s + d + r + n)
  {
    var left, right := (hs + s) + (hd + d) + (hr + r) + (hn + n), multiset{x} + (s + d + r + n);
    forall y
      ensures left[y] == right[y]
    {
      assert (hs + hd + hr + hn)[y] == multiset{x}[y];
    }
  }

  /** The four kinds split the queries between them. */
  lemma {:induction false} KindsPartition(qs: seq<InputQuery>)
    ensures multiset(OfKind(qs, AddStop)) + multiset(OfKind(qs, AddStopsDistance)) + multiset(OfKind(qs, AddRoute))
              + multiset(OfKind(qs, NoOp)) == multiset(qs)
    decreases |qs|
  {
    if qs != [] {
      var q, rest := qs[0], qs[1..];
      var s, d, r, n := multiset(OfKind(rest, AddStop)), multiset(OfKind(rest, AddStopsDistance)),
                        multiset(OfKind(rest, AddRoute)), multiset(OfKind(rest, NoOp));
      calc {
        multiset(OfKind(qs, AddStop)) + multiset(OfKind(qs, AddStopsDistance)) + multiset(OfKind(qs, AddRoute))
          + multiset(OfKind(qs, NoOp));
        { OfKindHead(qs, AddStop); OfKindHead(qs, AddStopsDistance); OfKindHead(qs, AddRoute); OfKindHead(qs, NoOp); }
        (Own(q, AddStop) + s) + (Own(q, AddStopsDistance) + d) + (Own(q, AddRoute) + r) + (Own(q, NoOp) + n);
        { OwnOnce(q);
          SumStep(s, d, r, n, Own(q, AddStop), Own(q, AddStopsDistance), Own(q, AddRoute), Own(q, NoOp), q); }
        multiset{q} + (s + d + r + n);
        { KindsPartition(rest); }
        multiset{q} + multiset(rest);
        { assert qs == [q] + rest; }
        multiset(qs);
      }
    }
  }

  /** Every query has exactly one kind. */
  lemma {:induction false} OwnOnce(q: InputQuery)
    ensures Own(q, AddStop) + Own(q, AddStopsDistance) + Own(q, AddRoute) + Own(q, NoOp) == multiset{q}
  {
    match q.kind
    case AddStop =>
    case AddStopsDistance =>
    case AddRoute =>
    case NoOp =>
  }

  /** No query is lost or duplicated by the phasing, except that NoOps are dropped. */
  lemma {:induction false} PhasedKeepsQueries(qs: seq<InputQuery>)
    ensures multiset(Phased(qs)) + multiset(OfKind(qs, NoOp)) == multiset(qs)
    ensures forall q :: q in Phased(qs) ==> q.kind != NoOp
  {
    KindsPartition(qs);
    OfKindMembers(qs, AddStop);
    OfKindMembers(qs, AddStopsDistance);
    OfKindMembers(qs, AddRoute);
  }

  /** Phasing keeps the queries of each kind, in their order. */
  lemma {:induction false} OfKindOfPhased(qs: seq<InputQuery>, kind: InputQueryType)
    requires kind != NoOp
    ensures OfKind(Phased(qs), kind) == OfKind(qs, kind)
  {
    var s, d, r := OfKind(qs, AddStop), OfKind(qs, AddStopsDistance), OfKind(qs, AddRoute);
    OfKindAppend(s + d, r, kind);
    OfKindAppend(s, d, kind);
    OfKindMembers(qs, AddStop);
    OfKindMembers(qs, AddStopsDistance);
    OfKindMembers(qs, AddRoute);
    match kind {
      case AddStop =>
        OfKindAll(s, kind);
        OfKindNone(d, kind);
        OfKindNone(r, kind);
      case AddStopsDistance =>
        OfKindNone(s, kind);
        OfKindAll(d, kind);
        OfKindNone(r, kind);
      case AddRoute =>
        OfKindNone(s, kind);
        OfKindNone(d, kind);
        OfKindAll(r, kind);
    }
  }

  /** Phasing an already phased list changes nothing. */
  lemma {:induction false} PhasedIdempotent(qs: seq<InputQuery>)
    ensures Phased(Phased(qs)) == Phased(qs)
  {
    OfKindOfPhased(qs, AddStop);
    OfKindOfPhased(qs, AddStopsDistance);
    OfKindOfPhased(qs, AddRoute);
  }

  lemma {:induction false} OfKindAppend(a: seq<InputQuery>, b: seq<InputQuery>, kind: InputQueryType)
    ensures OfKind(a + b, kind) == OfKind(a, kind) + OfKind(b, kind)
    decreases |a|
  {
    if a == [] {
      AppendEmpty(b);
    } else {
      var head := if a[0].kind == kind then [a[0]] else [];
      ConsAppend(a, b);
      assert OfKind(a + b, kind) == head + OfKind(a[1..] + b, kind);
      OfKindAppend(a[1..], b, kind);
      assert OfKind(a, kind) == head + OfKind(a[1..], kind);
      AppendAssoc(head, OfKind(a[1..], kind), OfKind(b, kind));
    }
  }

  lemma {:induction false} OfKindAll(a: seq<InputQuery>, kind: InputQueryType)
    requires forall q :: q in a ==> q.kind == kind
    ensures OfKind(a, kind) == a
    decreases |a|
  {
    if a != [] {
      OfKindAll(a[1..], kind);
    }
  }

  lemma {:induction false} OfKindNone(a: seq<InputQuery>, kind: InputQueryType)
    requires forall q :: q in a ==> q.kind != kind
    ensures OfKind(a, kind) == []
    decreases |a|
  {
    if a != [] {
      OfKindNone(a[1..], kind);
    }
  }

  /** Appending one query to a list. */
  lemma {:induction false} OfKindSnoc(a: seq<InputQuery>, q: InputQuery, kind: InputQueryType)
    ensures OfKind(a + [q], kind) == OfKind(a, kind) + (if q.kind == kind then [q] else [])
  {
    OfKindAppend(a, [q], kind);
    assert OfKind([q], kind) == (if q.kind == kind then [q] else []) + OfKind([], kind);
  }

  lemma {:induction false} ApplyAllSnoc(db: Db, a: seq<InputQuery>, q: InputQuery, conv: Conversions)
    requires Valid(db)
    ensures ApplyAll(db, a + [q], conv) == ApplyQuery(ApplyAll(db, a, conv), q, conv)
  {
    ApplyAllAppend(db, a, [q], conv);
    var db1 := ApplyAll(db, a, conv);
    assert ApplyAll(db1, [q], conv) == ApplyAll(ApplyQuery(db1, q, conv), [], conv);
  }

  /** The first phase: the AddStop queries, one after another. */
  function AddStops(db: Db, qs: seq<InputQuery>, conv: Conversions): (r: Db)
    requires Valid(db)
    ensures Valid(r)
  {
    if qs == [] then db else AfterAddStop(AddStops(db, qs[..|qs| - 1], conv), ParseStop(qs[|qs| - 1].query, conv))
  }

  /** The second phase: the AddStopsDistance queries, one after another. */
  function AddDistances(db: Db, qs: seq<InputQuery>, conv: Conversions): (r: Db)
    requires Valid(db)
    ensures Valid(r)
  {
    if qs == [] then db else AfterDistanceQuery(AddDistances(db, qs[..|qs| - 1], conv), qs[|qs| - 1].query, conv)
  }

  /** The last phase: the AddRoute queries, one after another, each parsed against the stops of that moment. */
  function AddRoutes(db: Db, qs: seq<InputQuery>, conv: Conversions): (r: Db)
    requires Valid(db)
    ensures Valid(r)
  {
    if qs == [] then db
    else
      var before := AddRoutes(db, qs[..|qs| - 1], conv);
      var route := ParseRoute(before, qs[|qs| - 1].query);
      AfterAddRoute(before, route.0, route.1, false)
  }

  lemma {:induction false} AddStopsSnoc(db: Db, done: seq<InputQuery>, q: InputQuery, conv: Conversions)
    requires Valid(db)
    ensures AddStops(db, done + [q], conv) == AfterAddStop(AddStops(db, done, conv), ParseStop(q.query, conv))
  {
    var qs := done + [q];
    assert qs[..|qs| - 1] == done && qs[|qs| - 1] == q;
  }

  lemma {:induction false} AddDistancesSnoc(db: Db, done: seq<InputQuery>, q: InputQuery, conv: Conversions)
    requires Valid(db)
    ensures AddDistances(db, done + [q], conv) == AfterDistanceQuery(AddDistances(db, done, conv), q.query, conv)
  {
    var qs := done + [q];
    assert qs[..|qs| - 1] == done && qs[|qs| - 1] == q;
  }

  lemma {:induction false} AddRoutesSnoc(db: Db, done: seq<InputQuery>, q: InputQuery, conv: Conversions)
    requires Valid(db)
    ensures var before := AddRoutes(db, done, conv);
            var route := ParseRoute(before, q.query);
            AddRoutes(db, done + [q], conv) == AfterAddRoute(before, route.0, route.1, false)
  {
    var qs := done + [q];
    assert qs[..|qs| - 1] == done && qs[|qs| - 1] == q;
  }

  /** The whole input: stops, then distances, then routes. */
  function Load(db: Db, qs: seq<InputQuery>, conv: Conversions): (r: Db)
    requires Valid(db)
    ensures Valid(r)
  {
    AddRoutes(AddDistances(AddStops(db, OfKind(qs, AddStop), conv), OfKind(qs, AddStopsDistance), conv), OfKind(qs, AddRoute), conv)
  }

  lemma {:induction false} AddStopsIsApplyAll(db: Db, qs: seq<InputQuery>, conv: Conversions)
    requires Valid(db) && forall q :: q in qs ==> q.kind == AddStop
    ensures AddStops(db, qs, conv) == ApplyAll(db, qs, conv)
    decreases |qs|
  {
    if qs != [] {
      var init, last := qs[..|qs| - 1], qs[|qs| - 1];
      assert qs == init + [last];
      AddStopsIsApplyAll(db, init, conv);
      ApplyAllSnoc(db, init, last, conv);
    }
  }

  lemma {:induction false} AddDistancesIsApplyAll(db: Db, qs: seq<InputQuery>, conv: Conversions)
    requires Valid(db) && forall q :: q in qs ==> q.kind == AddStopsDistance
    ensures AddDistances(db, qs, conv) == ApplyAll(db, qs, conv)
    decreases |qs|
  {
    if qs != [] {
      var init, last := qs[..|qs| - 1], qs[|qs| - 1];
      assert qs == init + [last];
      AddDistancesIsApplyAll(db, init, conv);
      ApplyAllSnoc(db, init, last, conv);
    }
  }

  lemma {:induction false} AddRoutesIsApplyAll(db: Db, qs: seq<InputQuery>, conv: Conversions)
    requires Valid(db) && forall q :: q in qs ==> q.kind == AddRoute
    ensures AddRoutes(db, qs, conv) == ApplyAll(db, qs, conv)
    decreases |qs|
  {
    if qs != [] {
      var init, last := qs[..|qs| - 1], qs[|qs| - 1];
      assert qs == init + [last];
      AddRoutesIsApplyAll(db, init, conv);
      ApplyAllSnoc(db, init, last, conv);
    }
  }

  /**
   * Loading is applying the queries one after another in phased order:
   * the stops, then the distances, then the routes, each kind in input order.
   */
  lemma {:induction false} LoadIsPhasedApply(db: Db, qs: seq<InputQuery>, conv: Conversions)
    requires Valid(db)
    ensures Load(db, qs, conv) == ApplyAll(db, Phased(qs), conv)
  {
    var s, d, r := OfKind(qs, AddStop), OfKind(qs, AddStopsDistance), OfKind(qs, AddRoute);
    OfKindMembers(qs, AddStop);
    OfKindMembers(qs, AddStopsDistance);
    OfKindMembers(qs, AddRoute);
    AddStopsIsApplyAll(db, s, conv);
    var db1 := ApplyAll(db, s, conv);
    AddDistancesIsApplyAll(db1, d, conv);
    var db2 := ApplyAll(db1, d, conv);
    AddRoutesIsApplyAll(db2, r, conv);
    ApplyAllAppend(db, s, d, conv);
    ApplyAllAppend(db, s + d, r, conv);
  }

  /**
   * `ProcessInputQueries`: apply every AddStop query, then every
   * AddStopsDistance query, then every AddRoute query, each kind in input
   * order; other queries are ignored.
   */
  method ProcessInputQueries(tc: TransportCatalogue, queries: seq<InputQuery>, conv: Conversions)
    requires tc.Inv()
    modifies tc
    ensures tc.Inv()
    ensures tc.State() == Load(old(tc.State()), queries, conv)
  {
    var delayed := StopPhase(tc, queries, conv);
    delayed := DistancePhase(tc, delayed, conv);
    RoutePhase(tc, delayed, conv);
  }

  /** The first loop: add the stops, keep every other query for later, in order. */
  method StopPhase(tc: TransportCatalogue, queries: seq<InputQuery>, conv: Conversions) returns (delayed: seq<InputQuery>)
    requires tc.Inv()
    modifies tc
    ensures tc.Inv()
    ensures tc.State() == AddStops(old(tc.State()), OfKind(queries, AddStop), conv)
    ensures OfKind(delayed, AddStopsDistance) == OfKind(queries, AddStopsDistance)
    ensures OfKind(delayed, AddRoute) == OfKind(queries, AddRoute)
  {
    ghost var db0 := tc.State();
    delayed := [];
    var i := 0;
    PrefixEnds(queries);
    assert OfKind([], AddStop) == [] && AddStops(db0, [], conv) == db0;
    while i < |queries|
      invariant 0 <= i <= |queries| && tc.Inv() && Valid(db0)
      invariant tc.State() == AddStops(db0, OfKind(queries[..i], AddStop), conv)
      invariant OfKind(delayed, AddStopsDistance) == OfKind(queries[..i], AddStopsDistance)
      invariant OfKind(delayed, AddRoute) == OfKind(queries[..i], AddRoute)
    {
      delayed := StopStep(tc, db0, queries, i, delayed, conv);
      i := i + 1;
    }
  }

  /** One turn of the first loop: `q` follows the queries already seen, `done`. */
  method StopStep(tc: TransportCatalogue, ghost db0: Db, queries: seq<InputQuery>, i: nat,
                  delayed: seq<InputQuery>, conv: Conversions) returns (later: seq<InputQuery>)
    requires tc.Inv() && Valid(db0) && i < |queries|
    requires tc.State() == AddStops(db0, OfKind(queries[..i], AddStop), conv)
    requires OfKind(delayed, AddStopsDistance) == OfKind(queries[..i], AddStopsDistance)
    requires OfKind(delayed, AddRoute) == OfKind(queries[..i], AddRoute)
    modifies tc
    ensures tc.Inv()
    ensures tc.State() == AddStops(db0, OfKind(queries[..i + 1], AddStop), conv)
    ensures OfKind(later, AddStopsDistance) == OfKind(queries[..i + 1], AddStopsDistance)
    ensures OfKind(later, AddRoute) == OfKind(queries[..i + 1], AddRoute)
  {
    ghost var done := queries[..i];
    var q := queries[i];
    SliceSnoc(queries, i);
    ghost var before := OfKind(done, AddStop);
    OfKindSnoc(done, q, AddStop);
    OfKindSnoc(done, q, AddStopsDistance);
    OfKindSnoc(done, q, AddRoute);
    if q.kind == AddStop {
      assert OfKind(done + [q], AddStop) == before + [q];
      assert OfKind(done + [q], AddStopsDistance) == OfKind(done, AddStopsDistance) + [];
      assert OfKind(done, AddStopsDistance) + [] == OfKind(done, AddStopsDistance);
      assert OfKind(done + [q], AddRoute) == OfKind(done, AddRoute) + [];
      assert OfKind(done, AddRoute) + [] == OfKind(done, AddRoute);
      AddStopsSnoc(db0, before, q, conv);
      tc.AddStop(ParseStop(q.query, conv));
      later := delayed;
    } else {
      assert OfKind(done + [q], AddStop) == before + [];
      assert before + [] == before;
      OfKindSnoc(delayed, q, AddStopsDistance);
      OfKindSnoc(delayed, q, AddRoute);
      later := delayed + [q];
    }
  }

  /** The second loop: add the distances, keep every other query for later, in order. */
  method DistancePhase(tc: TransportCatalogue, queries: seq<InputQuery>, conv: Conversions) returns (delayed: seq<InputQuery>)
    requires tc.Inv()
    modifies tc
    ensures tc.Inv()
    ensures tc.State() == AddDistances(old(tc.State()), OfKind(queries, AddStopsDistance), conv)
    ensures OfKind(delayed, AddRoute) == OfKind(queries, AddRoute)
  {
    ghost var db0 := tc.State();
    delayed := [];
    var i := 0;
    PrefixEnds(queries);
    assert OfKind([], AddStopsDistance) == [] && AddDistances(db0, [], conv) == db0;
    while i < |queries|
      invariant 0 <= i <= |queries| && tc.Inv() && Valid(db0)
      invariant tc.State() == AddDistances(db0, OfKind(queries[..i], AddStopsDistance), conv)
      invariant OfKind(delayed, AddRoute) == OfKind(queries[..i], AddRoute)
    {
      delayed := DistanceStep(tc, db0, queries, i, delayed, conv);
      i := i + 1;
    }
  }

  /** One turn of the second loop. */
  method DistanceStep(tc: TransportCatalogue, ghost db0: Db, queries: seq<InputQuery>, i: nat,
                      delayed: seq<InputQuery>, conv: Conversions) returns (later: seq<InputQuery>)
    requires tc.Inv() && Valid(db0) && i < |queries|
    requires tc.State() == AddDistances(db0, OfKind(queries[..i], AddStopsDistance), conv)
    requires OfKind(delayed, AddRoute) == OfKind(queries[..i], AddRoute)
    modifies tc
    ensures tc.Inv()
    ensures tc.State() == AddDistances(db0, OfKind(queries[..i + 1], AddStopsDistance), conv)
    ensures OfKind(later, AddRoute) == OfKind(queries[..i + 1], AddRoute)
  {
    ghost var done := queries[..i];
    var q := queries[i];
    SliceSnoc(queries, i);
    ghost var before := OfKind(done, AddStopsDistance);
    OfKindSnoc(done, q, AddStopsDistance);
    OfKindSnoc(done, q, AddRoute);
    if q.kind == AddStopsDistance {
      assert OfKind(done + [q], AddStopsDistance) == before + [q];
      assert OfKind(done + [q], AddRoute) == OfKind(done, AddRoute) + [];
      assert OfKind(done, AddRoute) + [] == OfKind(done, AddRoute);
      AddDistancesSnoc(db0, before, q, conv);
      ProcessQueryAddStopsDistance(tc, q.query, conv);
      later := delayed;
    } else {
      assert OfKind(done + [q], AddStopsDistance) == before + [];
      assert before + [] == before;
      OfKindSnoc(delayed, q, AddRoute);
      later := delayed + [q];
    }
  }

  /** The last loop: add the routes, ignore everything else. */
  method RoutePhase(tc: TransportCatalogue, queries: seq<InputQuery>, conv: Conversions)
    requires tc.Inv()
    modifies tc
    ensures tc.Inv()
    ensures tc.State() == AddRoutes(old(tc.State()), OfKind(queries, AddRoute), conv)
  {
    ghost var db0 := tc.State();
    var i := 0;
    PrefixEnds(queries);
    assert OfKind([], AddRoute) == [] && AddRoutes(db0, [], conv) == db0;
    while i < |queries|
      invariant 0 <= i <= |queries| && tc.Inv() && Valid(db0)
      invariant tc.State() == AddRoutes(db0, OfKind(queries[..i], AddRoute), conv)
    {
      RouteStep(tc, db0, queries, i, conv);
      i := i + 1;
    }
  }

  /** One turn of the last loop. */
  method RouteStep(tc: TransportCatalogue, ghost db0: Db, queries: seq<InputQuery>, i: nat, conv: Conversions)
    requires tc.Inv() && Valid(db0) && i < |queries|
    requires tc.State() == AddRoutes(db0, OfKind(queries[..i], AddRoute), conv)
    modifies tc
    ensures tc.Inv()
    ensures tc.State() == AddRoutes(db0, OfKind(queries[..i + 1], AddRoute), conv)
  {
    ghost var done := queries[..i];
    var q := queries[i];
    SliceSnoc(queries, i);
    ghost var before := OfKind(done, AddRoute);
    OfKindSnoc(done, q, AddRoute);
    if q.kind == AddRoute {
      assert OfKind(done + [q], AddRoute) == before + [q];
      AddRoutesSnoc(db0, before, q, conv);
      var name, ids := ProcessQueryAddRoute(tc, q.query);
      tc.AddRoute(name, ids, false);
    } else {
      assert OfKind(done + [q], AddRoute) == before + [];
      assert before + [] == before;
    }
  }
}
