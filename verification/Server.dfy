/** The server side of keyed routing: the endpoints a pod serves, the migrations it hears of, and the
    decision to accept or reject a request. */
module Servers {
  import opened Base
  import opened Endpoints
  import opened RouteStore
  import opened RoutingTables
  import opened Servings

  /** The table after `onMigration`. */
  function Migrated(local: set<Endpoint>, v: View, m: Migration): View {
    if EqualEndpoints(m.from, m.to) then v
    else
      var v' := if m.from.Some? && m.from.value in local then v - {m.key} else v;
      if m.to.Some? && m.to.value in local && !EqualEndpoints(m.to, RouteIn(v', m.key)) then v'[m.key := m.to.value]
      else v'
  }

  /** Whether `onMigration` tells the application's listener. */
  function Relative(local: set<Endpoint>, v: View, m: Migration): bool {
    !EqualEndpoints(m.from, m.to) &&
    (|| (m.from.Some? && m.from.value in local)
     || (m.to.Some? && m.to.value in local && !EqualEndpoints(m.to, RouteIn(v, m.key))))
  }

  /** A migration applied again, as when a setter hears its own message, changes nothing more; the listener
      is told again exactly when the migration leaves one of the server's own endpoints. */
  lemma MigrationAppliedTwice(local: set<Endpoint>, v: View, m: Migration)
    ensures Migrated(local, Migrated(local, v, m), m) == Migrated(local, v, m)
    ensures Relative(local, Migrated(local, v, m), m) <==>
            !EqualEndpoints(m.from, m.to) && m.from.Some? && m.from.value in local
    ensures !Relative(local, v, m) ==> Migrated(local, v, m) == v
  {
  }

  /** How far a migration has come: it takes the table's lock to delete, to look, and to add, and other
      goroutines may take it in between. */
  datatype Progress = NotStarted | Cleared | Adding | Done

  function Advanced(local: set<Endpoint>, v: View, m: Migration, p: Progress): (View, Progress) {
    match p
    case NotStarted =>
      if EqualEndpoints(m.from, m.to) then (v, Done)
      else (if m.from.Some? && m.from.value in local then v - {m.key} else v,
            if m.to.Some? && m.to.value in local then Cleared else Done)
    case Cleared => (v, if EqualEndpoints(m.to, RouteIn(v, m.key)) then Done else Adding)
    case Adding => (WithRoute(v, m.key, m.to), Done)
    case Done => (v, Done)
  }

  function Completed(local: set<Endpoint>, v: View, m: Migration, p: Progress): View
    decreases match p case NotStarted => 3 case Cleared => 2 case Adding => 1 case Done => 0
  {
    if p.Done? then v
    else
      var (v', p') := Advanced(local, v, m, p);
      Completed(local, v', m, p')
  }

  /** Nothing coming in between, the parts of a migration are the whole. */
  lemma PartsAreTheWhole(local: set<Endpoint>, v: View, m: Migration)
    ensures Completed(local, v, m, NotStarted) == Migrated(local, v, m)
  {
    var (v1, p1) := Advanced(local, v, m, NotStarted);
    var (v2, p2) := Advanced(local, v1, m, p1);
    var (v3, p3) := Advanced(local, v2, m, p2);
    assert p3.Done?;
  }

  /** `OnRequestReceived` trusts its own table unless it has no entry, or the client says that this
      very endpoint has already rejected it. */
  function AsksStore(v: View, key: Key, endpoint: Option<Endpoint>, last: Option<Endpoint>): bool {
    RouteIn(v, key).None? || EqualEndpoints(last, endpoint)
  }

  function Accepts(v: View, answer: Lookup, key: Key, endpoint: Option<Endpoint>, last: Option<Endpoint>): bool {
    EqualEndpoints(endpoint, if AsksStore(v, key, endpoint, last) then RefreshedRoute(answer) else RouteIn(v, key))
  }

  function ViewAfterRequest(v: View, answer: Lookup, key: Key, endpoint: Option<Endpoint>, last: Option<Endpoint>): View {
    if AsksStore(v, key, endpoint, last) then RefreshedView(v, key, answer) else v
  }

  datatype Response =
    | Accepted
    | InvalidMetadata
    | SelectorNotFound
    | WrongEndpoint(selector: string, header: string, endpoint: string)

  const DIRECT := "direct"
  const LEAST_REQUEST := "least_request"

  function HeaderOf(headers: map<string, string>, name: string): string {
    if name in headers then headers[name] else ""
  }

  class YaprServer {
    var endpoints: set<Endpoint>
    var endpointsByService: map<string, seq<Endpoint>>
    const routingTable: RoutingTable

    constructor ()
      ensures endpoints == {} && endpointsByService == map[]
      ensures fresh(routingTable) && routingTable.Routes() == map[]
    {
      endpoints, endpointsByService := {}, map[];
      routingTable := new RoutingTable();
    }

    method OnMigration(m: Migration) returns (relative: bool)
      modifies routingTable
      ensures routingTable.Routes() == Migrated(endpoints, old(routingTable.Routes()), m)
      ensures relative == Relative(endpoints, old(routingTable.Routes()), m)
    {
      if EqualEndpoints(m.from, m.to) {
        return false;
      }
      relative := false;
      if m.from.Some? {
        if m.from.value in endpoints {
          relative := true;
          routingTable.DeleteRoute(m.key.selector, m.key.header);
        }
      }
      if m.to.Some? {
        var current := routingTable.GetRoute(m.key.selector, m.key.header);
        if m.to.value in endpoints && !EqualEndpoints(m.to, current) {
          relative := true;
          routingTable.AddRoute(m.key.selector, m.key.header, m.to);
        }
      }
    }

    /** `limited` says of every known selector whether it limits requests, and `answer` is what
        `GetCustomRoute` would say during the call. `counted` is the key of the counter, if any, that the
        request is counted under from now until its response is sent. */
    method OnRequestReceived(headers: map<string, string>, limited: map<string, bool>, answer: Lookup)
      returns (r: Response, counted: Option<string>)
      modifies routingTable
      ensures var key := Key(HeaderOf(headers, "yapr-selector"), HeaderOf(headers, "yapr-header-value"));
              var text := HeaderOf(headers, "yapr-endpoint");
              var endpoint, last := FromText(text), FromText(HeaderOf(headers, "yapr-last-endpoint"));
              if "yapr-strategy" !in headers then
                r == InvalidMetadata && routingTable.Routes() == old(routingTable.Routes())
              else if key.selector !in limited then
                r == SelectorNotFound && routingTable.Routes() == old(routingTable.Routes())
              else if headers["yapr-strategy"] != "direct" then
                r == Accepted && routingTable.Routes() == old(routingTable.Routes())
              else
                && routingTable.Routes() == ViewAfterRequest(old(routingTable.Routes()), answer, key, endpoint, last)
                && r == if Accepts(old(routingTable.Routes()), answer, key, endpoint, last) then Accepted
                        else WrongEndpoint(key.selector, key.header, text)
      ensures var selector := HeaderOf(headers, "yapr-selector");
              counted == if r == Accepted && (limited[selector] || headers["yapr-strategy"] == "least_request")
                         then Some(selector + "_" + HeaderOf(headers, "yapr-endpoint")) else None
    {
      if "yapr-strategy" !in headers {
        return InvalidMetadata, None;
      }
      var selector := HeaderOf(headers, "yapr-selector");
      var text := HeaderOf(headers, "yapr-endpoint");
      var endpoint := FromText(text);
      if selector !in limited {
        return SelectorNotFound, None;
      }
      var shouldReport := limited[selector];
      if headers["yapr-strategy"] == DIRECT {
        var header := HeaderOf(headers, "yapr-header-value");
        var last := HeaderOf(headers, "yapr-last-endpoint");
        var expected := routingTable.GetRoute(selector, header);
        if expected == None || EqualEndpoints(FromText(last), endpoint) {
          expected := routingTable.Refresh(selector, header, answer);
        }
        if !EqualEndpoints(endpoint, expected) {
          return WrongEndpoint(selector, header, text), None;
        }
      } else if headers["yapr-strategy"] == LEAST_REQUEST {
        shouldReport := true;
      }
      r, counted := Accepted, if shouldReport then Some(selector + "_" + text) else None;
    }

    /** The compare-and-set, then the local migration, then the message to publish, if any. */
    method SetCustomRoute(store: RedisStore, key: Key, endpoint: Endpoint, presented: Option<Endpoint>, timeout: int, now: real)
      returns (realOld: Option<Endpoint>, message: Option<string>)
      modifies store, routingTable
      ensures var c := Call(key, endpoint, presented, timeout, now);
              && store.Contents() == AfterCall(old(store.Contents()), c)
              && realOld == ReportedOld(old(store.Contents()), c)
              && if presented.Some? && realOld.None? then
                   && routingTable.Routes() == Migrated(endpoints, old(routingTable.Routes()), Migration(key, presented, Some(endpoint)))
                   && message == Some(MigrationText(key, presented.value, endpoint))
                 else
                   routingTable.Routes() == old(routingTable.Routes()) && message == None
    {
      message := None;
      realOld := store.SetCustomRoute(key, endpoint, presented, timeout, now);
      if presented.Some? && realOld.None? {
        var _ := OnMigration(Migration(key, presented, Some(endpoint)));
        message := Some(MigrationText(key, presented.value, endpoint));
      }
    }

    function Served(services: ServiceStore): Serving
      reads this, services
    {
      Serving(endpoints, endpointsByService, services.leased)
    }

    /** Nothing changes here unless the store accepts the registration. */
    method RegisterService(services: ServiceStore, service: string, list: seq<Endpoint>, fault: Fault) returns (ok: bool)
      modifies this, services
      ensures ok == IsAccepted(old(Served(services)), Register(service, list, fault))
      ensures Served(services) == After(old(Served(services)), Register(service, list, fault))
    {
      ok := services.RegisterService(service, fault);
      if !ok {
        return;
      }
      for i := 0 to |list|
        invariant endpoints == old(endpoints) + SetOf(list[..i])
        invariant endpointsByService == old(endpointsByService) && services.leased == old(services.leased) + {service}
      {
        assert list[..i + 1] == list[..i] + [list[i]];
        endpoints := endpoints + {list[i]};
      }
      assert list[..|list|] == list;
      endpointsByService := endpointsByService[service := list];
    }

    method UnregisterService(services: ServiceStore, service: string)
      modifies this, services
      ensures Served(services) == After(old(Served(services)), Unregister(service))
    {
      services.UnregisterService(service);
      var list := if service in endpointsByService then endpointsByService[service] else [];
      for i := 0 to |list|
        invariant endpoints == old(endpoints) - SetOf(list[..i])
        invariant endpointsByService == old(endpointsByService) && services.leased == old(services.leased) - {service}
      {
        assert list[..i + 1] == list[..i] + [list[i]];
        endpoints := endpoints - {list[i]};
      }
      assert list[..|list|] == list;
      endpointsByService := endpointsByService - {service};
    }
  }

  predicate SameAddress(a: Endpoint, b: Endpoint) {
    a.ip == b.ip && a.port == b.port
  }

  /** A request is decided by the server's entry, unless it has none or the client was rejected there before, and
      then by the store's answer, which becomes the entry; addresses and ports are compared, and not pods. */
  lemma RequestDecidedBy(v: View, answer: Lookup, key: Key, e: Endpoint, last: Option<Endpoint>)
    ensures var asks := key !in v || (last.Some? && SameAddress(last.value, e));
            && (Accepts(v, answer, key, Some(e), last) <==>
                if asks then answer.Found? && answer.endpoint.Some? && SameAddress(e, answer.endpoint.value) else SameAddress(e, v[key]))
            && ViewAfterRequest(v, answer, key, Some(e), last) ==
               if !asks || answer.NoCustomRoute? then v
               else if answer.endpoint.None? then v - {key}
               else v[key := answer.endpoint.value]
  {
  }

  /** A request whose endpoint does not parse is accepted exactly when the server asks the store and the
      store has nothing that parses either. */
  lemma UnreadableEndpointAcceptedIff(v: View, answer: Lookup, key: Key, last: Option<Endpoint>)
    ensures Accepts(v, answer, key, None, last) <==> (key !in v || last.None?) && (answer.Found? ==> answer.endpoint.None?)
  {
  }

  // ---------- what a table entry means to a server ----------

  /** One pod per address: endpoints that compare equal are the same. */
  ghost predicate OnePodPerAddress(es: set<Endpoint>) {
    forall a, b :: a in es && b in es && a.ip == b.ip && a.port == b.port ==> a == b
  }

  /** The part of an entry a server acts on: itself if it is one of the server's own endpoints. */
  function LocalPart(local: set<Endpoint>, e: Option<Endpoint>): Option<Endpoint> {
    if e.Some? && e.value in local then e else None
  }

  /** Seen through the server's own endpoints, its entry and the stored endpoint are the same. */
  ghost predicate AgreesWithStore(world: set<Endpoint>, local: set<Endpoint>, v: View, answer: Lookup, key: Key) {
    && local <= world
    && (answer.Found? ==> answer.endpoint.Some? && answer.endpoint.value in world)
    && (key in v ==> v[key] in world && answer.Found? && LocalPart(local, Some(v[key])) == LocalPart(local, answer.endpoint))
  }

  lemma AgreementAcceptsOwner(world: set<Endpoint>, local: set<Endpoint>, v: View, answer: Lookup, key: Key, e: Endpoint, last: Option<Endpoint>)
    requires OnePodPerAddress(world) && e in local && AgreesWithStore(world, local, v, answer, key)
    ensures Accepts(v, answer, key, Some(e), last) <==> answer == Found(Some(e))
  {
  }
}
