/**
 * The request handler: a facade over the catalogue that the JSON front
 * end queries. It holds the catalogue by reference and answers the stop
 * and bus queries by asking the catalogue; it changes nothing.
 *
 * Its string helpers (`Split`, `Lstrip`, `Rstrip`, `TrimString`) are the
 * same as those of the line reader and are modelled once, in `Strings`.
 */
module RequestHandler {
  import opened Catalogue
  import Sorting

  class RequestHandler {
    const catalogue: TransportCatalogue

    constructor(tc: TransportCatalogue)
      ensures catalogue == tc
    {
      catalogue := tc;
    }

    /**
     * `GetRouteInfo`: the catalogue's answer for the route, unchanged: the
     * stored route of that name, or `RouteNotExists` when there is none.
     */
    method GetRouteInfo(name: string) returns (r: RouteInfo)
      requires catalogue.Inv()
      ensures r == Catalogue.GetRouteInfo(catalogue.State(), name)
      ensures r.RouteNotExists? <==> forall k :: 0 <= k < |catalogue.routes| ==> catalogue.routes[k].name != name
      ensures r.RouteFound? ==> r.route in catalogue.routes && r.route.name == name
    {
      r := Catalogue.GetRouteInfo(catalogue.State(), name);
    }

    /**
     * `GetBusesForStop`: the catalogue's answer for the stop, unchanged:
     * unknown stop, no buses, or the serving routes' names sorted.
     */
    method GetBusesForStop(name: string) returns (r: BusesInfo)
      requires catalogue.Inv()
      ensures r == BusesForStop(catalogue.State(), name)
      ensures r.StopNotExists? <==> StopByName(catalogue.State(), name).None?
      ensures r.Buses? ==>
                && Sorting.SortedBy(r.names, NameLess())
                && multiset(r.names) == multiset(ServingRoutes(catalogue.State(), |catalogue.routes|, name))
    {
      r := catalogue.GetBusesForStop(name);
    }
  }
}
