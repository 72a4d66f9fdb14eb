/** The routing table a server keeps: selector, then header value, then endpoint. */
module RoutingTables {
  import opened Base
  import opened Endpoints
  import opened RouteStore

  type NestedTable = map<string, map<string, Option<Endpoint>>>

  /** What a table says: the endpoint of every key that has one. An absent key and a stored nil are
      the same to every reader. */
  type View = map<Key, Endpoint>

  function RouteAt(t: NestedTable, key: Key): Option<Endpoint> {
    if key.selector in t && key.header in t[key.selector] then t[key.selector][key.header] else None
  }

  ghost function ViewOf(t: NestedTable): (v: View)
    ensures forall key :: RouteIn(v, key) == RouteAt(t, key)
  {
    var keys := set s, h | s in t && h in t[s] :: Key(s, h);
    assert forall key: Key :: RouteAt(t, key).Some? ==> Key(key.selector, key.header) in keys;
    map key | key in keys && RouteAt(t, key).Some? :: RouteAt(t, key).value
  }

  lemma SameRoutesSameView(v: View, w: View)
    requires forall key :: RouteIn(v, key) == RouteIn(w, key)
    ensures v == w
  {
    assert forall key :: key in v <==> RouteIn(v, key).Some?;
    assert forall key :: key in w <==> RouteIn(w, key).Some?;
    assert forall key | key in v :: v[key] == RouteIn(v, key).value == RouteIn(w, key).value;
  }

  function RouteIn(v: View, key: Key): Option<Endpoint> {
    if key in v then Some(v[key]) else None
  }

  function WithRoute(v: View, key: Key, endpoint: Option<Endpoint>): View {
    match endpoint
    case None => v - {key}
    case Some(e) => v[key := e]
  }

  /** The endpoint `Refresh` returns, and the table it leaves: a store error changes nothing. */
  function RefreshedRoute(answer: Lookup): Option<Endpoint> {
    match answer
    case NoCustomRoute => None
    case Found(e) => e
  }

  function RefreshedView(v: View, key: Key, answer: Lookup): View {
    match answer
    case NoCustomRoute => v
    case Found(e) => WithRoute(v, key, e)
  }

  class RoutingTable {
    var table: NestedTable

    ghost function Routes(): View
      reads this
    {
      ViewOf(table)
    }

    constructor ()
      ensures Routes() == map[]
    {
      table := map[];
      new;
      SameRoutesSameView(Routes(), map[]);
    }

    method AddRoute(selector: string, header: string, endpoint: Option<Endpoint>)
      modifies this
      ensures Routes() == WithRoute(old(Routes()), Key(selector, header), endpoint)
    {
      if selector !in table {
        table := table[selector := map[]];
      }
      table := table[selector := table[selector][header := endpoint]];
      SameRoutesSameView(Routes(), WithRoute(old(Routes()), Key(selector, header), endpoint));
    }

    method GetRoute(selector: string, header: string) returns (endpoint: Option<Endpoint>)
      ensures endpoint == RouteIn(Routes(), Key(selector, header))
    {
      if selector !in table {
        return None;
      }
      endpoint := if header in table[selector] then table[selector][header] else None;
    }

    method DeleteRoute(selector: string, header: string)
      modifies this
      ensures Routes() == old(Routes()) - {Key(selector, header)}
    {
      if selector !in table {
        SameRoutesSameView(Routes(), Routes() - {Key(selector, header)});
        return;
      }
      table := table[selector := table[selector] - {header}];
      SameRoutesSameView(Routes(), old(Routes()) - {Key(selector, header)});
    }

    method Refresh(selector: string, header: string, answer: Lookup) returns (endpoint: Option<Endpoint>)
      modifies this
      ensures Routes() == RefreshedView(old(Routes()), Key(selector, header), answer)
      ensures endpoint == RefreshedRoute(answer)
    {
      if answer.NoCustomRoute? {
        return None;
      }
      AddRoute(selector, header, answer.endpoint);
      endpoint := answer.endpoint;
    }
  }
}
