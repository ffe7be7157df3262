# Transport catalogue — a Dafny model

This project models the core of a C++ transport catalogue: a store of bus
stops and bus routes that answers questions about them.

- It reads its base data from a line format ("Stop X: lat, lng, 3900m to Y",
  "Bus N: A - B - C") or from a JSON document, and fills the catalogue.
- The catalogue stores stops, routes and the road distances between stops.
- A router compiles the catalogue into a weighted graph with a wait vertex
  and a travel vertex per stop, and turns a shortest path through it into
  an itinerary.
- Stat requests ("Stop", "Bus", "Map", "Route") are answered as JSON nodes
  built with a small JSON builder, and JSON is read and printed by a
  hand-written parser and printer.

Files, one module each:

- `wrappers.dfy`: `Option`, `Result`.
- `seqs.dfy`: sequence facts.
- `strings.dfy`: `Split`, `Lstrip`, `Rstrip`, `TrimString` and the
  lexicographic order.
- `sorting.dfy`: the sort used for `std::sort`.
- `catalogue.dfy`: the `TransportCatalogue` class and its state as a value.
- `router.dfy`: the graph compiler and the `TransportRouter` class.
- `input_reader.dfy`: the line-format reader.
- `request_handler.dfy`: the `RequestHandler` facade.
- `json.dfy`: JSON nodes and the loader.
- `json_print.dfy`: the printer and the load-after-print round trip.
- `json_builder.dfy`: the `Builder` class and its context types.
- `json_reader.dfy`: JSON ingestion and the answers to stat requests.

Objects whose fields the program updates in place are classes:
`TransportCatalogue`, `TransportRouter`, `RequestHandler` and `Builder`.
Each method is proved to perform a transition given by a function on a value
of its state. Those functions carry the stated properties.

Stops are identified by their position in the stop store, in place of the
`const Stop*` the program hands out. Routes keep their stops as such
positions.

## Model

| member | source | states |
|---|---|---|
| Strings.Find | transport-catalogue/input_reader.cpp:11-15 | the position found is at or after the start and holds the delimiter, and no earlier position from the start does; npos (the length) when there is none |
| Strings.SkipOccurrences | transport-catalogue/input_reader.cpp:12-15 | the loop of `Split`: each step moves to the next occurrence and stops at npos |
| Strings.Split | transport-catalogue/input_reader.cpp:9-30 | neither part is longer than the line, and the right part is shorter than a non-empty line; the copy at request_handler.cpp:15-36 is the same function |
| Strings.SplitSpec | transport-catalogue/input_reader.cpp:9-30 | the left part is the prefix before the `count`-th delimiter (the whole line when there is none); the right part is everything after that delimiter, and empty when the delimiter is last or missing |
| Strings.Lstrip | transport-catalogue/input_reader.cpp:32-41 | the result is no longer than the line and does not start with whitespace |
| Strings.LstripSpec | transport-catalogue/input_reader.cpp:32-41 | exactly the leading whitespace is removed: what is dropped is whitespace and the result does not start with whitespace (the copy is at request_handler.cpp:38-47) |
| Strings.Rstrip | transport-catalogue/input_reader.cpp:43-55 | the result is no longer than the line and does not end with whitespace |
| Strings.RstripSpec | transport-catalogue/input_reader.cpp:43-55 | exactly the trailing whitespace is removed (the copy is at request_handler.cpp:49-61) |
| Strings.TrimString | transport-catalogue/input_reader.cpp:57-60 | the result is no longer than the line and has no whitespace at either end |
| Strings.TrimStringSpec | transport-catalogue/input_reader.cpp:57-60 | the result is the stretch of the line between its leading and trailing whitespace, with no whitespace at either end |
| Strings.TrimStringIdempotent | transport-catalogue/request_handler.cpp:63-66 | trimming a trimmed string changes nothing |
| Strings.TrimStringKeepsMiddle | transport-catalogue/request_handler.cpp:63-66 | a string without surrounding whitespace is its own trim; the middle is never touched |
| Strings.LessTotal | transport-catalogue/transport_catalogue.cpp:226 | the string order that `std::sort` uses on route names is total on distinct names |
| Sorting.Sort | transport-catalogue/transport_catalogue.cpp:54 | a sort of a copy: same length and same multiset of elements |
| Sorting.SortSorted | transport-catalogue/transport_catalogue.cpp:54 | under a strict total order the result is sorted (`Sort` itself keeps the multiset of elements) |
| Sorting.SortedPermutationUnique | transport-catalogue/transport_catalogue.cpp:226 | any two sorted permutations of the same elements are equal, so the sorted output does not depend on the input order |
| Sorting.RunCountDistinct | transport-catalogue/transport_catalogue.cpp:55-57 | in a sorted sequence, `std::unique` keeps one element per run, and the number of runs is the number of distinct elements |
| Catalogue.StopByName | transport-catalogue/transport_catalogue.cpp:150-161 | a stop found is a stored stop of that name |
| Catalogue.StopByNameSpec | transport-catalogue/transport_catalogue.cpp:150-161 | the lookup finds a stop exactly when one of that name is stored; an unknown name gives none and does not fail |
| Catalogue.RouteByName | transport-catalogue/transport_catalogue.cpp:163-174 | a route found is a stored route of that name |
| Catalogue.RouteByNameSpec | transport-catalogue/transport_catalogue.cpp:163-174 | the lookup finds a route exactly when one of that name is stored |
| Catalogue.AfterAddStop | transport-catalogue/transport_catalogue.cpp:13-24 | the catalogue invariant is kept, and routes and distances are unchanged |
| Catalogue.AddStopSpec | transport-catalogue/transport_catalogue.cpp:13-24 | a taken name changes nothing; a new stop is appended and found by name, and every other name is looked up as before |
| Catalogue.AfterAddDistance | transport-catalogue/transport_catalogue.cpp:100-107 | the invariant is kept, and stops and routes are unchanged |
| Catalogue.AddDistanceSpec | transport-catalogue/transport_catalogue.cpp:100-107 | a missing endpoint changes nothing; otherwise the pair is present, keeping its old value if it had one (first write wins), and no other entry changes |
| Catalogue.DistanceDirectly | transport-catalogue/transport_catalogue.cpp:116-126 | the recorded distance, or 0 when there is none |
| Catalogue.DistanceFallback | transport-catalogue/transport_catalogue.cpp:109-114 | a positive forward entry is the answer; otherwise the reverse entry, or 0, even when the forward entry is a recorded 0 |
| Catalogue.DistanceSymmetricFromOneEntry | transport-catalogue/transport_catalogue.cpp:109-114 | one recorded direction answers both directions while the other is absent |
| Catalogue.NewRoute | transport-catalogue/transport_catalogue.cpp:46-79 | the stored route has the given name and stops and the count of distinct stops; with 0 or 1 stops the length is 0 and the curvature is 1; otherwise the length is the sum of consecutive distances |
| Catalogue.AfterAddRoute | transport-catalogue/transport_catalogue.cpp:26-98 | the invariant is kept, and stops and distances are unchanged |
| Catalogue.AddRouteSpec | transport-catalogue/transport_catalogue.cpp:26-98 | a taken name changes nothing; a new route is appended with its statistics and found by name, and every other name is looked up as before |
| Catalogue.ServingRoutes | transport-catalogue/transport_catalogue.cpp:206-219 | a name is listed exactly when a route of that name lists the stop |
| Catalogue.GetRouteInfo | transport-catalogue/transport_catalogue.cpp:177-194 | `RouteNotExists` exactly when no route has the name; otherwise the stored route of that name |
| Catalogue.NameLessOrder | transport-catalogue/transport_catalogue.cpp:226 | the order used to sort route names is a strict total order |
| Catalogue.UniqueCountIsDistinct | transport-catalogue/transport_catalogue.cpp:53-57 | sorting a copy of the stop list and counting the runs gives the number of distinct stops |
| Catalogue.TransportCatalogue.constructor | transport-catalogue/transport_catalogue.cpp:7-8 | an empty catalogue that satisfies the invariant |
| Catalogue.TransportCatalogue.AddStop | transport-catalogue/transport_catalogue.cpp:13-24 | the new state is `AfterAddStop` of the old one, and the invariant is kept |
| Catalogue.TransportCatalogue.AddDistance | transport-catalogue/transport_catalogue.cpp:100-107 | the new state is `AfterAddDistance` of the old one |
| Catalogue.TransportCatalogue.AddRoute | transport-catalogue/transport_catalogue.cpp:26-98 | the new state is `AfterAddRoute`: the unique count comes from sorting a copy and counting runs, and the length from the consecutive-pair loop |
| Catalogue.TransportCatalogue.SumRoadLength | transport-catalogue/transport_catalogue.cpp:60-79 | the loop adds `GetDistance` of each consecutive pair in `size_t`; the result is the sum modulo 2^64 |
| Catalogue.TransportCatalogue.GetBusesForStop | transport-catalogue/transport_catalogue.cpp:197-246 | `StopNotExists` exactly for an unknown stop; `NoBuses` exactly when no route lists it; otherwise the names of exactly the routes that list it, sorted ascending |
| RequestHandler.RequestHandler.constructor | transport-catalogue/request_handler.h:1-64 | the handler refers to the given catalogue |
| RequestHandler.RequestHandler.GetRouteInfo | transport-catalogue/request_handler.cpp:72-75 | the catalogue's answer, unchanged |
| RequestHandler.RequestHandler.GetBusesForStop | transport-catalogue/request_handler.cpp:77-80 | the catalogue's answer, unchanged: sorted names of exactly the serving routes |
| Router.VertexMapAt | transport-catalogue/transport_router.cpp:67-86 | with distinct names, the i-th stop has wait vertex 2i and travel vertex 2i+1, and only stop names are keys |
| Router.WaitStep | transport-catalogue/transport_router.cpp:70-86 | one more stop adds its two vertices and its WAIT edge at the end |
| Router.WaitEdges | transport-catalogue/transport_router.cpp:77-84 | exactly one WAIT edge per stop, in stop order, from wait to travel vertex, with weight `bus_wait_time`, the stop's name and span 0 |
| Router.RouteEdgesSpec | transport-catalogue/transport_router.cpp:92-114 | a route of k ≥ 1 stops gives k(k−1)/2 TRAVEL edges: exactly one from travel(stops[i]) to wait(stops[j]) for each i < j, named after the route, with span j − i; an empty route gives none |
| Router.RouteEdgesCount | transport-catalogue/transport_router.cpp:92-114 | the number of TRAVEL edges from the first m positions of a k-stop route is m(2k − m − 1)/2 |
| Router.TravelEdgeSpec | transport-catalogue/transport_router.cpp:98-112 | a TRAVEL edge's weight times `bus_velocity`·1000/60 is the road distance summed pair by pair from i to j; its span is j − i ≥ 1 |
| Router.SegmentSplit | transport-catalogue/transport_router.cpp:98-103 | the summed distance of a stretch splits at any middle stop |
| Router.WholeRouteSegment | transport-catalogue/transport_router.cpp:98-103 | the edge over a whole route carries the route's road length, before the `size_t` wrap |
| Router.GraphVertexBounds | transport-catalogue/transport_router.cpp:9 | every edge joins vertices below twice the stop count, the size the graph is created with |
| Router.ItemOf | transport-catalogue/transport_router.cpp:49-57 | a leg has the edge's name, weight and type; WAIT legs have span 0 |
| Router.Items | transport-catalogue/transport_router.cpp:47-58 | one leg per path edge, in path order |
| Router.ItineraryLegs | transport-catalogue/transport_router.cpp:47-58 | on a path through the compiled graph, WAIT legs carry span 0 and a stop's name, and TRAVEL legs a route's name and a span of at least 1 |
| Router.EmptyRouteOuterBound | transport-catalogue/transport_router.cpp:92 | the loop bound as written, `size() - 1` in `size_t`, wraps to 2^64 − 1 for an empty route and is k − 1 otherwise |
| Router.TransportRouter.constructor | transport-catalogue/transport_router.cpp:8-14 | the graph is sized for twice the stop count; nothing is built yet; the default settings |
| Router.TransportRouter.ApplyRouterSettings | transport-catalogue/transport_router.cpp:17-20 | only the settings change; an existing graph keeps its edges and weights |
| Router.TransportRouter.CalculateRoute | transport-catalogue/transport_router.cpp:29-61 | the graph is built on the first call only and reused afterwards; an unknown from/to name is an error (the throw of `at`), checked after the build; otherwise the answer is the translation of the search result: no path gives the default `RouteData` |
| Router.TransportRouter.Translate | transport-catalogue/transport_router.cpp:42-58 | a found path gives `founded` true, one leg per edge in path order, and a total time equal to the sum of the leg times |
| Router.TransportRouter.BuildGraph | transport-catalogue/transport_router.cpp:65-127 | the edges are all WAIT edges then every route's TRAVEL edges, the vertex maps are 2i and 2i+1, and the router is marked as built |
| Router.TransportRouter.AddWaitEdges | transport-catalogue/transport_router.cpp:67-86 | the first loop leaves exactly the WAIT edges and the two vertex maps |
| Router.TransportRouter.AddStopVertices | transport-catalogue/transport_router.cpp:72-85 | one turn: both vertices of the stop are inserted and its WAIT edge appended |
| Router.TransportRouter.AddNthRouteEdges | transport-catalogue/transport_router.cpp:89-123 | one turn of the route loop appends that route's TRAVEL edges |
| Router.TransportRouter.AddRouteEdges | transport-catalogue/transport_router.cpp:92-115 | appends exactly the route's TRAVEL edges, with no outer iteration for a route of fewer than two stops |
| Router.TransportRouter.AddRowEdges | transport-catalogue/transport_router.cpp:94-114 | appends the edges from position i to every later position, in order |
| Router.TransportRouter.RoadDistance | transport-catalogue/transport_router.cpp:98-103 | the innermost loop sums `GetDistance` over the pairs from i to j |
| InputReader.ParseStop | transport-catalogue/input_reader.cpp:213-239 | the stop's name is `TrimString` of the text before the first ':'; it sits in that text with only whitespace around it and has no whitespace at either end (the coordinates are not constrained) |
| InputReader.NextClause | transport-catalogue/input_reader.cpp:265-275 | one "<d>m to <name>" clause: the distance is the size conversion of the trimmed text before the first 'm'; the name is the trimmed text between the first space after the left-stripped remainder and the next ','; the rest of the list is a strictly shorter suffix of the input |
| InputReader.AddClausesStopsAtUnknown | transport-catalogue/input_reader.cpp:263-285 | only the clauses before the first unknown destination take effect |
| InputReader.AddClausesKeeps | transport-catalogue/input_reader.cpp:284 | entries already in the table keep their value |
| InputReader.AddClausesRecords | transport-catalogue/input_reader.cpp:263-285 | every pair from the origin to a destination in the known prefix has a distance afterwards |
| InputReader.AfterDistanceQuery | transport-catalogue/input_reader.cpp:242-286 | the catalogue invariant is kept, and an unknown origin changes nothing |
| InputReader.ProcessQueryAddStopsDistance | transport-catalogue/input_reader.cpp:242-286 | the new catalogue state is `AfterDistanceQuery` of the old one |
| InputReader.Delimiter | transport-catalogue/input_reader.cpp:306 | '>' exactly when the stop part contains '>', '-' otherwise |
| InputReader.CanonicalShape | transport-catalogue/input_reader.cpp:325-333 | an out-and-back list of n > 1 names becomes s0..s(n−1), s(n−2)..s0: length 2n − 1, ends where it starts, and reads the same both ways |
| InputReader.KnownIdsKnown | transport-catalogue/input_reader.cpp:336-345 | only ids of stored stops are kept |
| InputReader.KnownIdsFromNames | transport-catalogue/input_reader.cpp:336-345 | every id kept is the id of one of the names |
| InputReader.KnownIdsAllKnown | transport-catalogue/input_reader.cpp:336-345 | when every name is known, each keeps its place |
| InputReader.KnownIdsSkipsUnknown | transport-catalogue/input_reader.cpp:336-345 | an unknown name is dropped and the others keep their order |
| InputReader.ParseRoute | transport-catalogue/input_reader.cpp:289-349 | the route's name is `TrimString` of the text before the first ':' and sits in that text with only whitespace around it; every stop id it returns is a known stop |
| InputReader.ProcessQueryAddRoute | transport-catalogue/input_reader.cpp:289-349 | the result is `ParseRoute` against the catalogue's state |
| InputReader.CutStopList | transport-catalogue/input_reader.cpp:311-323 | the loop that cuts the stop part at each delimiter gives the stop names |
| InputReader.AddReturnLeg | transport-catalogue/input_reader.cpp:325-333 | the loop that appends the names in reverse, except the last, gives the doubled list |
| InputReader.ResolveStops | transport-catalogue/input_reader.cpp:336-345 | the lookup loop keeps the ids of the known names, in order |
| InputReader.KindsPartition | transport-catalogue/input_reader.cpp:164-210 | the four kinds of query split any query list between them |
| InputReader.PhasedKeepsQueries | transport-catalogue/input_reader.cpp:164-210 | the phased order loses and duplicates no query, except that NoOps are dropped |
| InputReader.OfKindOfPhased | transport-catalogue/input_reader.cpp:164-210 | the phased order keeps the queries of each kind in input order |
| InputReader.PhasedIdempotent | transport-catalogue/input_reader.cpp:164-210 | phasing an already phased list changes nothing |
| InputReader.LoadIsPhasedApply | transport-catalogue/input_reader.cpp:164-210 | ingestion applies all stops, then all distances, then all routes, each kind in input order, one query at a time; NoOps have no effect |
| InputReader.ProcessInputQueries | transport-catalogue/input_reader.cpp:164-210 | the new catalogue state is `Load` of the old state and the queries |
| InputReader.StopPhase | transport-catalogue/input_reader.cpp:169-179 | the first loop adds every stop and delays every other query, in order |
| InputReader.DistancePhase | transport-catalogue/input_reader.cpp:186-197 | the second loop adds every distance query and delays every other query, in order |
| InputReader.RoutePhase | transport-catalogue/input_reader.cpp:200-209 | the last loop adds every route and ignores everything else |
| Json.DefaultNode | transport-catalogue/json.h:36-37 | a default node is null: not a number, not a bool, not a string |
| Json.ExactlyOneKind | transport-catalogue/json.cpp:357-398 | every node passes exactly one of the exclusive tests; `IsDouble` holds exactly for ints and doubles |
| Json.AsArray | transport-catalogue/json.cpp:402-412 | succeeds exactly for an array; a logic error otherwise |
| Json.AsMap | transport-catalogue/json.cpp:414-424 | succeeds exactly for a dictionary; a logic error otherwise |
| Json.AsBool | transport-catalogue/json.cpp:426-436 | succeeds exactly for a bool; a logic error otherwise |
| Json.AsInt | transport-catalogue/json.cpp:438-448 | succeeds exactly for an int, with that int; a logic error otherwise |
| Json.AsDouble | transport-catalogue/json.cpp:450-464 | succeeds exactly for an int (widened) or a double; a logic error otherwise |
| Json.AsString | transport-catalogue/json.cpp:466-476 | succeeds exactly for a string; a logic error otherwise |
| Json.IntIsNotDouble | transport-catalogue/json.cpp:485-490 | equality compares the alternative as well as the value: an int never equals a double |
| Json.Unescape | transport-catalogue/json.cpp:14-23 | only the eight letters of the table decode, each to its character |
| Json.SkipWsSpec | transport-catalogue/json.cpp:312 | `>>` skips only whitespace and stops at the first other character |
| Json.StringBody | transport-catalogue/json.cpp:93-129 | a string read ends just after a '"'; every failure is a parsing error |
| Json.StringBodyRaw | transport-catalogue/json.cpp:96-124 | up to the first quote or backslash characters are taken as they are, raw line breaks included |
| Json.StringBodyUnterminated | transport-catalogue/json.cpp:127-129 | without a closing quote there is no string |
| Json.LoadString | transport-catalogue/json.cpp:69-130 | the character loop gives `ParseString` |
| Json.ParseLiteral | transport-catalogue/json.cpp:164-204 | a literal read covers the first letter and three more characters and is true, false or null; every failure is a parsing error |
| Json.LiteralFirstLetterUnchecked | transport-catalogue/json.cpp:331-334 | the first letter is never checked: "nrue" loads as true |
| Json.NullFirstLetterUnchecked | transport-catalogue/json.cpp:331-334 | likewise "tull" loads as null |
| Json.NumberEnd | transport-catalogue/json.cpp:236-272 | a number read covers at least one character and ends within the input |
| Json.NumberEndSound | transport-catalogue/json.cpp:236-272 | what is accepted is a number of section 6 of RFC 8259: `-?(0\|[1-9][0-9]*)(.[0-9]+)?([eE][+-]?[0-9]+)?` |
| Json.NumberEndIntFlag | transport-catalogue/json.cpp:253-272 | the number is an int candidate exactly when it has neither '.' nor an exponent |
| Json.MissingDigitFails | transport-catalogue/json.cpp:224-251 | a '-' without a digit after it, or no digit at all, is a parsing error |
| Json.FractionNeedsDigit | transport-catalogue/json.cpp:255-260 | a '.' without a digit after it is a parsing error |
| Json.ReadDigits | transport-catalogue/json.cpp:224-234 | `read_digits` fails exactly when no digit comes next; otherwise it reads the whole run of digits and appends exactly those characters |
| Json.ReadFraction | transport-catalogue/json.cpp:255-260 | the fraction part, then the exponent, as `FractionEnd`, appending exactly the characters read |
| Json.ReadExponent | transport-catalogue/json.cpp:263-272 | the exponent part as `ExponentEnd`, appending exactly the characters read |
| Json.ExponentEnd | transport-catalogue/json.cpp:263-272 | the number stays an int candidate only when no exponent follows |
| Json.ParseNumber | transport-catalogue/json.cpp:207-299 | without a fraction or exponent the result is an int exactly when the value fits in 32 bits, and is then that value; otherwise it is `stod` of the same characters |
| Json.LoadNumber | transport-catalogue/json.cpp:207-299 | the imperative reader with `read_char` and `read_digits` gives `ParseNumber` |
| Json.ParseNode | transport-catalogue/json.cpp:306-350 | a node read ends after its start |
| Json.ParseNodeKind | transport-catalogue/json.cpp:306-350 | the first non-whitespace character decides the kind: '[' array, '{' dictionary, '"' string, t/f/n literal, anything else a number |
| Json.BlankFails | transport-catalogue/json.cpp:345-349 | input holding only whitespace is a parsing error |
| Json.LoadArray | transport-catalogue/json.cpp:28-53 | an array read ends after its start and gives an array node |
| Json.ArrayItems | transport-catalogue/json.cpp:43-50 | the loop keeps the elements read so far as a prefix of the result |
| Json.LoadDict | transport-catalogue/json.cpp:133-161 | a dictionary read ends after its start and gives a dictionary node |
| Json.DictItemsKeepsFirst | transport-catalogue/json.cpp:155-157 | `insert` never replaces an entry: the value read first for a key is kept |
| Json.RepeatedKeyKeepsFirst | transport-catalogue/json.cpp:155-157 | `{"a":1,"a":2}` loads as `{"a":1}` |
| Json.LeadingCommaFails | transport-catalogue/json.cpp:32-39 | "[,1]", "{,", "[" and "{" are parsing errors |
| Json.UnclosedArrayAccepted | transport-catalogue/json.cpp:43-52 | the loop also stops at the end of input: "[1" loads as [1] |
| JsonPrint.EscapeCharDecodes | transport-catalogue/json.h:94-103 | every character is written raw (when it is not a quote or backslash) or as '\\' and a letter the reader's table turns back into it |
| JsonPrint.TabAndSlashWrittenRaw | transport-catalogue/json.h:99-102 | tab and '/' are written raw although the reader decodes them as escapes |
| JsonPrint.EscapeRoundTrip | transport-catalogue/json.h:192-209 | reading an escaped string up to the closing quote gives the string back |
| JsonPrint.QuoteRoundTrip | transport-catalogue/json.h:168-209 | a printed string loads back as the same string |
| JsonPrint.IntToStringValue | transport-catalogue/json.h:160-163 | a printed int reads back as the same value |
| JsonPrint.SortedKeysAscending | transport-catalogue/json.h:136 | dictionary entries are printed in strictly ascending key order |
| JsonPrint.SortedKeysComplete | transport-catalogue/json.h:136 | every key of the dictionary is printed |
| JsonPrint.LiteralRoundTrip | transport-catalogue/json.h:110-159 | null, true and false are printed as `null`, `true`, `false` and load back |
| JsonPrint.ArrayRoundTrip | transport-catalogue/json.h:115-130 | an array printed as "[\n", elements joined by ", \n", "\n]" loads back as the same array |
| JsonPrint.DictRoundTrip | transport-catalogue/json.h:131-147 | a dictionary printed in key order with unescaped keys loads back as the same dictionary |
| JsonPrint.ZipSorted | transport-catalogue/json.cpp:148-158 | inserting the printed entries in key order rebuilds the map |
| JsonPrint.NodeRoundTrip | transport-catalogue/json.h:106-213 | the printed text of a node without doubles and with plain keys reads back as the node, wherever it occurs in a larger text |
| JsonPrint.LoadPrintRoundTrip | transport-catalogue/json.cpp:521-531 | `Load(Print(doc)) == doc` for documents without doubles and with keys that need no escape |
| JsonBuilder.GetPut | transport-catalogue/json_builder.cpp:39 | after a write through a path, the path leads to what was written |
| JsonBuilder.Fresh | transport-catalogue/json_builder.h:40-49 | a fresh builder has a null root, an empty stack and no open key |
| JsonBuilder.KeySpec | transport-catalogue/json_builder.cpp:15-55 | `Key` fails on an empty document, an empty stack, a non-dictionary on top or an open key; otherwise the key is open with a null placeholder and nothing else changes |
| JsonBuilder.ValueSpec | transport-catalogue/json_builder.cpp:67-119 | a value on a fresh builder becomes the root; with an empty stack it fails; it is appended to an array on top; on a dictionary it needs an open key, is written there and the key is closed |
| JsonBuilder.OpenSpec | transport-catalogue/json_builder.cpp:126-263 | `StartDict`/`StartArray` push exactly one new empty container: as the root, appended to an array, or under the open key (closing it); they fail on an empty stack and on a dictionary without an open key |
| JsonBuilder.EndDictSpec | transport-catalogue/json_builder.cpp:269-285 | succeeds exactly when a dictionary is on top and no key is open, and pops exactly one container |
| JsonBuilder.EndArraySpec | transport-catalogue/json_builder.cpp:291-307 | succeeds exactly when an array is on top, and pops exactly one container |
| JsonBuilder.BuildSpec | transport-catalogue/json_builder.cpp:309-324 | returns the root exactly when it is not null and the stack is empty |
| JsonBuilder.RunDepth | transport-catalogue/json_builder.cpp:133 | after a successful chain, the stack depth is the starting depth plus the Start* calls minus the End* calls |
| JsonBuilder.RunValid | transport-catalogue/json_builder.cpp:126-307 | every successful chain keeps the stack a chain of open containers starting at the root |
| JsonBuilder.BuildBalanced | transport-catalogue/json_builder.cpp:317-321 | a document built from a fresh builder has a non-null root and its chain ended as many containers as it started |
| JsonBuilder.RootValueIsWholeDocument | transport-catalogue/json_builder.cpp:71-82 | a value on a fresh builder is the whole document; a further `Value`, `StartDict` or `StartArray` fails |
| JsonBuilder.NullRootIsForgotten | transport-catalogue/json_builder.cpp:71-76 | a null given to a fresh builder leaves it fresh, so `Build` fails as for an empty document |
| JsonBuilder.NestedDocument | transport-catalogue/json_builder.cpp:126-324 | `StartDict().Key("a").StartArray().Value(1).EndArray().EndDict().Build()` gives `{"a": [1]}` |
| JsonBuilder.FlatDict | transport-catalogue/json_builder.cpp:126-324 | `StartDict()`, key/value pairs with distinct keys, `EndDict()` and `Build()` give the dictionary of the pairs |
| JsonBuilder.ContextCalls | transport-catalogue/json_builder.h:57-164 | the calls each context allows: after `Key` only `Value`, `StartDict`, `StartArray`; after `StartDict` or a dictionary `Value` only `Key`, `EndDict`; after `StartArray` or an array `Value` only `Value`, `StartDict`, `StartArray`, `EndArray`; `Build` only from `BaseContext` |
| JsonBuilder.TypestateSound | transport-catalogue/json_builder.h:82-164 | in every context but `BaseContext`, a call the context allows succeeds and leaves the builder in the state of the context it returns |
| JsonBuilder.Builder.constructor | transport-catalogue/json_builder.h:40-49 | a fresh builder |
| JsonBuilder.Builder.Key | transport-catalogue/json_builder.cpp:15-55 | the new state is the `Key` step; on failure nothing changes |
| JsonBuilder.Builder.Value | transport-catalogue/json_builder.cpp:67-119 | the new state is the `Value` step; on failure nothing changes |
| JsonBuilder.Builder.StartDict | transport-catalogue/json_builder.cpp:126-186 | the new state is the open step with an empty dictionary; on failure nothing changes |
| JsonBuilder.Builder.StartArray | transport-catalogue/json_builder.cpp:193-263 | the new state is the open step with an empty array; on failure nothing changes |
| JsonBuilder.Builder.Open | transport-catalogue/json_builder.cpp:126-263 | the shared body of `StartDict` and `StartArray`: succeeds exactly when the open step does, then the state is that step; otherwise nothing changes; the builder invariant is kept |
| JsonBuilder.Builder.EndDict | transport-catalogue/json_builder.cpp:269-285 | the new state is the `EndDict` step; on failure nothing changes |
| JsonBuilder.Builder.EndArray | transport-catalogue/json_builder.cpp:291-307 | the new state is the `EndArray` step; on failure nothing changes |
| JsonBuilder.Builder.Build | transport-catalogue/json_builder.cpp:309-324 | the result is the `Build` step: the root, or a failure |
| JsonReader.DoubleAt | transport-catalogue/json_reader.cpp:176-177 | `at(key).AsDouble()` succeeds exactly when the key is present and holds an int or a double |
| JsonReader.AfterStopData | transport-catalogue/json_reader.cpp:171-180 | succeeds exactly when "name" is a string and "latitude" and "longitude" are numbers; the invariant is kept |
| JsonReader.SizeCast | transport-catalogue/json_reader.cpp:194 | a negative int wraps around modulo 2^64 |
| JsonReader.RoadFoldOk | transport-catalogue/json_reader.cpp:192-195 | the walk succeeds exactly when every distance is an int |
| JsonReader.RoadFoldKeeps | transport-catalogue/json_reader.cpp:192-195 | every entry the table had is kept: the first write wins |
| JsonReader.RoadFoldAdds | transport-catalogue/json_reader.cpp:192-195 | every known destination has an entry from the origin; a new one holds the distance read |
| JsonReader.RoadFoldOnly | transport-catalogue/json_reader.cpp:192-195 | no entry is added except from the origin to a known destination; an unknown destination arrives as null and is ignored |
| JsonReader.StopDistanceSpec | transport-catalogue/json_reader.cpp:182-197 | an unknown origin changes nothing; a known one succeeds exactly when every distance is an int and then records them, whatever the order of the entries |
| JsonReader.RouteIdsSpec | transport-catalogue/json_reader.cpp:214-223 | the stop list succeeds exactly when every element is a string, and is the ids of the known names in list order |
| JsonReader.RouteDataSpec | transport-catalogue/json_reader.cpp:199-226 | succeeds exactly when every stop is a string; a taken name changes nothing; a new one is stored with the known stops in order |
| JsonReader.ZeroStopRoute | transport-catalogue/json_reader.cpp:224-225 | a route none of whose stops is known is still stored, with no stops, length 0 and curvature 1 |
| JsonReader.SkippedEntry | transport-catalogue/json_reader.cpp:143-144 | an element without "type" leaves a pass as if it were not there |
| JsonReader.StopPassKnowsAll | transport-catalogue/json_reader.cpp:138-168 | after the first pass every "Stop" element's name is a stop |
| JsonReader.IngestOrder | transport-catalogue/json_reader.cpp:126-169 | the three passes in order: every route is resolved against all "Stop" elements wherever they stand; the stop and distance passes add no route, and the bus pass adds no distance and no stop |
| JsonReader.PassOverErr | transport-catalogue/json_reader.cpp:140-167 | an element that throws ends the pass with that error |
| JsonReader.AddStopData | transport-catalogue/json_reader.cpp:171-180 | the catalogue becomes `AfterStopData` of the old one, or is unchanged on an error |
| JsonReader.AddStopDistance | transport-catalogue/json_reader.cpp:182-197 | the catalogue becomes `AfterStopDistance` of the old one |
| JsonReader.AddRouteData | transport-catalogue/json_reader.cpp:199-226 | the catalogue becomes `AfterRouteData` of the old one |
| JsonReader.AddEntry | transport-catalogue/json_reader.cpp:140-166 | one element in one pass, as `Entry` |
| JsonReader.Pass | transport-catalogue/json_reader.cpp:140-167 | one pass over the base requests, as `PassOver` |
| JsonReader.AddToDB | transport-catalogue/json_reader.cpp:126-169 | the three passes, as `Passes` |
| JsonReader.ByteCast | transport-catalogue/json_reader.cpp:244-256 | `static_cast<uint8_t>` keeps a component in 0..255 as it is; the wrap of other values is stated in `ConvertColorSpec` |
| JsonReader.ColorRoundTrip | transport-catalogue/json_reader.cpp:230-264 | every colour is decoded back from its JSON form |
| JsonReader.ConvertColorSpec | transport-catalogue/json_reader.cpp:230-264 | a named colour exactly for a string; RGB and RGBA exactly for 3- and 4-element arrays of ints (and a number last); components modulo 256; no colour for every other node |
| JsonReader.IntCast | transport-catalogue/json_reader.cpp:425-427 | `static_cast<int>` of a count: the value modulo 2^32, read as signed |
| JsonReader.ItemNodeRoundTrip | transport-catalogue/json_reader.cpp:476-492 | a TRAVEL leg becomes `{type "Bus", bus, span_count, time}` and a WAIT leg `{type "Wait", stop_name, time}`, and each reads back as the leg |
| JsonReader.RouteAnswerItems | transport-catalogue/json_reader.cpp:474-498 | a found itinerary is answered with its id, total time and one item per leg, in order |
| JsonReader.ItineraryAnswer | transport-catalogue/json_reader.cpp:474-498 | every leg of a router itinerary reads back from its answer when its span fits an int |
| JsonReader.NotFoundBuilt | transport-catalogue/json_reader.cpp:362-367 | the builder chain gives `{request_id, error_message: "not found"}` |
| JsonReader.StopAnswerBuilt | transport-catalogue/json_reader.cpp:383-388 | the builder chain gives `{buses, request_id}` |
| JsonReader.MapAnswerBuilt | transport-catalogue/json_reader.cpp:449-454 | the builder chain gives `{map, request_id}` |
| JsonReader.BusAnswerBuilt | transport-catalogue/json_reader.cpp:421-429 | the builder chain gives `{curvature, request_id, route_length, stop_count, unique_stop_count}` |
| JsonReader.RouteAnswerBuilt | transport-catalogue/json_reader.cpp:493-498 | the builder chain gives `{request_id, total_time, items}` |
| JsonReader.Response | transport-catalogue/json_reader.cpp:321-344 | a request that is not a dictionary throws; one without "type" is skipped; otherwise there is an answer exactly for a Stop, Bus, Map or Route request |
| JsonReader.ResponsesOk | transport-catalogue/json_reader.cpp:321-344 | the answers succeed exactly when every request does |
| JsonReader.ResponsesInOrder | transport-catalogue/json_reader.cpp:321-344 | exactly one answer per Stop/Bus/Map/Route request, in request order; other requests add nothing |
| JsonReader.ResponsesErr | transport-catalogue/json_reader.cpp:321-344 | the first request that throws ends the answering with its error |
| JsonReader.NotFoundAnswers | transport-catalogue/json_reader.cpp:355-368 | an unknown stop, an unknown route and a route query with no path are answered `{request_id, error_message: "not found"}` (also 398-411 and 465-472) |
| JsonReader.StopWithoutBuses | transport-catalogue/json_reader.cpp:370-388 | a known stop served by no bus is answered with an empty "buses" list, not "not found" |
| JsonReader.ProcessStopQuery | transport-catalogue/json_reader.cpp:348-389 | reads "name", asks the handler, and answers `StopRequest`; the request id is the one read |
| JsonReader.ProcessBusQuery | transport-catalogue/json_reader.cpp:391-431 | reads "name", asks the handler, and answers `BusRequest` |
| JsonReader.ProcessRouteQuery | transport-catalogue/json_reader.cpp:458-499 | the answer is `RouteRequest` against the router's graph; the graph is built on first use and reused afterwards; a router left unbuilt means the request failed |
| JsonReader.ProcessQuery | transport-catalogue/json_reader.cpp:323-342 | one request: the answer is `Response`, and the router is left built or unbuilt consistently with the catalogue |
| JsonReader.AnsweringStep | transport-catalogue/json_reader.cpp:321-344 | one turn keeps the loop invariant, or ends it with the first error |
| JsonReader.AnswerNext | transport-catalogue/json_reader.cpp:321-344 | one turn of the request loop |
| JsonReader.ParseRawJSONQueries | transport-catalogue/json_reader.cpp:311-346 | the answers are `Responses` of all requests, in order, or the first error; the graph is built by the first Route request that reaches the router, and every answer is the one the final router gives; without Route requests the router is unchanged |

## Left out

- `ComputeDistance` (geo.cpp), the geographic length of a route and the curvature quotient are left out. A route of two or more stops records only that its curvature is the road-over-geo quotient. A "Bus" answer is given a function from the route to that quotient as a parameter.
- Floating point: JSON doubles are exact reals. `std::stod`, `std::stoul`, the bus-velocity division and the printing of doubles are parameters or exact real arithmetic. Rounding, range errors and `stoi` failures other than by width are not modelled.
- The shortest-path search (`graph::Router::BuildRoute`) is not part of this model. It is a parameter that may answer no path or any path of the graph. Nothing about shortness is promised.
- Map rendering and SVG (`GetMapRender`, `ProcessMapQuery`'s `Render`): the rendered SVG text is a parameter of the "Map" answer.
- Serialization (`serialization.cpp`) is not part of this model. The I/O glue is left out too: `ProcessInput`, the line-reading and stream parts of `ProcessBaseJSON` and `ProcessRequestJSON`, `ReadRendererSettings`, `ReadRouterSettings`, `ReadSerializationSettings`, and the final `json::Print` of the answers. The answers are given as the node sequence that would be printed.
- `JsonPrint.LoadPrintRoundTrip`: the round trip is proved only for documents without doubles and with dictionary keys that need no escape. Keys are printed unescaped, and a key holding '"' or '\\' does not read back.
- The printer's string visitor reads the string through an `istringstream`, one character at a time. This is modelled as a plain loop over the characters.
- `Json.ParseLiteral`: `get(buf, 4)` stops early at a line break. The model takes the next three characters. A window containing a line break cannot match "rue", "ull" or "als" anyway, so only the error text differs.
- `JsonBuilder.Builder.Build`: `std::move(root_)` leaves the root in a moved-from state. The model leaves the builder as it was.
- A `Value(nullptr)` on a fresh builder cannot be told apart from no value, because a null root means an empty document. The model keeps this behaviour as written; `JsonBuilder.NullRootIsForgotten` states it.
- `JsonReader.ProcessRouteQuery`: C++ leaves the order in which "from" and "to" are read unspecified. The model reads "from" first, which matters only for which missing key is reported.
- On an exception thrown part-way through an operation that changes state, the model promises nothing about that state. The program does not catch these exceptions.
- `transport_catalogue.cpp` is an older revision than its callers. The JSON reader and the request handler use `route_name`, `is_circular`, `stops_on_route`, `unique_stops` and an optional pointer result. Here `stops_on_route` is the length of the stored stop list. An engaged optional holding a null pointer is the not-found outcome. A `nullopt` result would make the following `.value()` throw `bad_optional_access`; that case is not modelled.
- `JsonReader.AddRouteData` / `Catalogue.NewRoute`: a JSON route with `"is_roundtrip": false` is stored with its stop list one way only, as `AddRoute` in `transport_catalogue.cpp` stores whatever list it is given. The JSON reader, the router (transport_router.cpp:117-118) and serialization were written for a catalogue that stores such a route there and back. For a JSON route of n stops that is not a round trip, three things therefore differ from that intent. The Bus answer gives `stop_count` n instead of 2n − 1. Its `route_length` covers only the outward direction. The TRAVEL edges of the return direction are missing, so Route answers can differ too. The line format is not affected, because `ProcessQueryAddRoute` builds the there-and-back list itself.
- `Router.TransportRouter.CalculateRoute`, `Router.TransportRouter.BuildGraph` and the JSON request methods that reach them (`JsonReader.ProcessRouteQuery`, `ProcessQuery`, `AnswerNext`, `ParseRawJSONQueries`) require a non-zero `bus_velocity`. The program accepts `"bus_velocity": 0` (json_reader.cpp:296 reads it with `AsInt()` and no check). transport_router.cpp:109 then divides by `0.0` and produces infinite or NaN edge weights, which have no counterpart in exact real arithmetic.
- `Router.TransportRouter.constructor`: the graph's vertex count is fixed at twice the stop count when the router is constructed. The model does not tie that count to the stop count at the time `BuildGraph` runs. The program constructs the router after ingestion (json_reader.cpp:57 and 109), so the two agree; a router constructed before stops are added would get a graph that is too small, and the model does not capture that.
- Strings are sequences of byte-valued characters: a `char` stands for the program's byte. Two consequences of C++ `char` being signed are not modelled. `std::isspace` on a negative `char` is undefined behaviour. `std::string` comparison orders bytes as `unsigned char`, and this order agrees with the model's character order only because every character is taken to lie in 0..255.
- `InputReader.ParseStop`: the contract states the stop's name only. Its latitude and longitude are the results of the `std::stod` parameter on the two halves of the trimmed text after ':', and no property of them is stated.
- `GetAllStopsPtr` and `GetAllRoutesPtr` are not defined in `transport_catalogue.cpp`. They are taken to list stops and routes in insertion order.
- Pointer hashing (`PairPointersHasher`) and the address stability of the stores are replaced by stop positions and maps.

## Findings

| source | as written | input that shows it | evidently intended | confidence | as-written member | corrected member |
|---|---|---|---|---|---|---|
| transport-catalogue/transport_router.cpp:92 | the outer TRAVEL loop runs to `route->stops.size() - 1` in `size_t`, which wraps to 2^64 − 1 for an empty route; the loop then spins through about 1.8·10^19 empty iterations | a route with no known stops, which `AddRouteData` stores on purpose (json_reader.cpp:224) | no iteration for a route of fewer than two stops | not executed; high | Router.EmptyRouteOuterBound | Router.TransportRouter.AddRouteEdges |
