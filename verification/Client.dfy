/**
 The client's retry loop around one keyed request over gRPC: up to three attempts, each picking an
 endpoint anew, with a cache refresh and a note of the rejecting endpoint between them. While it runs
 the stored route does not change.
 */
module Clients {
  import opened Base
  import opened Text
  import opened Endpoints
  import opened RouteStore
  import opened RoutingTables
  import opened Servers
  import opened Directs

  const MAX_ATTEMPTS := 3

  /** The registered endpoints with the server each belongs to, and what the store says of the key. */
  datatype World = World(home: map<Endpoint, nat>, answer: Lookup)

  /** `rejected` is the first `yapr-last-endpoint` value: later rejections are appended behind it, and
      servers read only the first. It is empty while there is none. */
  datatype Session = Session(views: map<nat, View>, cache: Cache, rejected: string)

  datatype Reply = Served(server: Endpoint) | Wrong(server: Endpoint) | NotSent(pick: Pick)

  datatype Outcome = Success(server: Endpoint, attempts: nat) | Failure(pick: Pick) | MaxRetries

  function ViewAt(views: map<nat, View>, s: nat): View {
    if s in views then views[s] else map[]
  }

  /** One attempt: pick through the cache, then ask the endpoint's server. */
  function Attempt(w: World, key: Key, c: Session): (Reply, Session) {
    var cache := CacheAfterGet(c.cache, key.header, w.answer);
    var pick := PickFor(c.cache, w.home.Keys, key.header, w.answer);
    match pick
    case Picked(e) =>
      var sent, last := FromText(ToText(e)), FromText(c.rejected);
      var v := ViewAt(c.views, w.home[e]);
      var views := c.views[w.home[e] := ViewAfterRequest(v, w.answer, key, sent, last)];
      (if Accepts(v, w.answer, key, sent, last) then Served(e) else Wrong(e), Session(views, cache, c.rejected))
    case _ => (NotSent(pick), c.(cache := cache))
  }

  /** What the loop does after a rejection. */
  function AfterRejection(w: World, key: Key, c: Session, server: Endpoint): Session {
    c.(cache := CacheAfterRefresh(c.cache, key.header, w.answer),
       rejected := if c.rejected == "" then ToText(server) else c.rejected)
  }

  function InvokeFrom(w: World, key: Key, c: Session, i: nat): Outcome
    requires i <= MAX_ATTEMPTS
    decreases MAX_ATTEMPTS - i
  {
    if i == MAX_ATTEMPTS then MaxRetries
    else
      var (reply, c') := Attempt(w, key, c);
      match reply
      case Served(e) => Success(e, i + 1)
      case NotSent(pick) => Failure(pick)
      case Wrong(e) => InvokeFrom(w, key, AfterRejection(w, key, c', e), i + 1)
  }

  method Invoke(w: World, key: Key, views: map<nat, View>, cache: Cache) returns (r: Outcome)
    ensures r == InvokeFrom(w, key, Session(views, cache, ""), 0)
  {
    var c := Session(views, cache, "");
    for i := 0 to MAX_ATTEMPTS
      invariant InvokeFrom(w, key, c, i) == InvokeFrom(w, key, Session(views, cache, ""), 0)
    {
      var (reply, c') := Attempt(w, key, c);
      if reply.Served? {
        return Success(reply.server, i + 1);
      }
      if reply.NotSent? {
        return Failure(reply.pick);
      }
      c := AfterRejection(w, key, c', reply.server);
    }
    r := MaxRetries;
  }

  /** A client's own `SetCustomRoute`: the compare-and-set and the message to publish, if any. Its last
      parameter, `ignoreExisting`, is never read. */
  method SetCustomRoute(store: RedisStore, key: Key, endpoint: Endpoint, presented: Option<Endpoint>, timeout: int, now: real)
    returns (realOld: Option<Endpoint>, message: Option<string>)
    modifies store
    ensures var c := Call(key, endpoint, presented, timeout, now);
            && store.Contents() == AfterCall(old(store.Contents()), c)
            && realOld == ReportedOld(old(store.Contents()), c)
            && message == if presented.Some? && realOld.None? then Some(MigrationText(key, presented.value, endpoint)) else None
  {
    realOld := store.SetCustomRoute(key, endpoint, presented, timeout, now);
    message := if presented.Some? && realOld.None? then Some(MigrationText(key, presented.value, endpoint)) else None;
  }

  /** The session after a rejection by `e`: the cache is refreshed, and only the first rejection is noted. */
  function Rejected(w: World, key: Key, c: Session, e: Endpoint): Session {
    Session(c.views, CacheAfterRefresh(c.cache, key.header, w.answer), if c.rejected == "" then e.ip + "#" + e.pod + "#" + Itoa(e.port) else c.rejected)
  }

  lemma RejectedIsAfterRejection(w: World, key: Key, c: Session, e: Endpoint)
    ensures AfterRejection(w, key, c, e) == Rejected(w, key, c, e)
  {
    assert e.ip + "#" + e.pod + "#" + Itoa(e.port) == ToText(e);
  }

  /** There are three attempts, each but the first after a rejection of the one before it. */
  lemma ThreeAttempts(w: World, key: Key, c: Session)
    ensures InvokeFrom(w, key, c, 0) ==
            var (first, c1) := Attempt(w, key, c);
            match first
            case Served(e) => Success(e, 1)
            case NotSent(pick) => Failure(pick)
            case Wrong(e1) =>
              var (second, c2) := Attempt(w, key, Rejected(w, key, c1, e1));
              match second
              case Served(e) => Success(e, 2)
              case NotSent(pick) => Failure(pick)
              case Wrong(e2) =>
                match Attempt(w, key, Rejected(w, key, c2, e2)).0
                case Served(e) => Success(e, 3)
                case NotSent(pick) => Failure(pick)
                case Wrong(_) => MaxRetries
  {
    var (first, c1) := Attempt(w, key, c);
    if first.Wrong? {
      RejectedIsAfterRejection(w, key, c1, first.server);
      var (second, c2) := Attempt(w, key, Rejected(w, key, c1, first.server));
      if second.Wrong? {
        RejectedIsAfterRejection(w, key, c2, second.server);
      }
    }
  }

  // ---------- when the loop succeeds ----------

  /** The route names a registered endpoint, and the first pick is a registered endpoint too. */
  ghost predicate Ready(w: World, key: Key, cache: Cache, first: Endpoint, owner: Endpoint) {
    && OnePodPerAddress(w.home.Keys) && (forall e :: e in w.home ==> Plain(e))
    && owner in w.home && w.answer == Found(Some(owner))
    && first in w.home && CacheGet(cache, key.header, w.answer) == Found(Some(first))
    && (cache.Lru? ==> cache.capacity > 0)
  }

  /** A server's answer to a client that names `e`, after a first rejection by `last`, if any. */
  predicate Admits(w: World, key: Key, v: View, e: Endpoint, last: Option<Endpoint>) {
    Accepts(v, w.answer, key, Some(e), last)
  }

  lemma FirstAttempt(w: World, key: Key, views: map<nat, View>, cache: Cache, first: Endpoint, owner: Endpoint)
    requires Ready(w, key, cache, first, owner)
    ensures var v := ViewAt(views, w.home[first]);
            InvokeFrom(w, key, Session(views, cache, ""), 0) ==
            if Admits(w, key, v, first, None) then Success(first, 1)
            else
              var v' := views[w.home[first] := ViewAfterRequest(v, w.answer, key, Some(first), None)];
              InvokeFrom(w, key, Session(v', CacheAfterRefresh(CacheAfterGet(cache, key.header, w.answer), key.header, w.answer), ToText(first)), 1)
  {
    TextRoundTrip(first);
    assert FromText("").None?;
  }

  /** From the second attempt on the pick is the route's owner, and only its server matters. */
  lemma LaterAttempts(w: World, key: Key, views: map<nat, View>, cache: Cache, first: Endpoint, owner: Endpoint)
    requires Ready(w, key, cache, first, owner)
    ensures var v := ViewAt(views, w.home[owner]);
            var c := CacheAfterRefresh(CacheAfterGet(cache, key.header, w.answer), key.header, w.answer);
            InvokeFrom(w, key, Session(views, c, ToText(first)), 1) ==
            if Admits(w, key, v, owner, Some(first)) then Success(owner, 2) else MaxRetries
  {
    TextRoundTrip(first);
    TextRoundTrip(owner);
    RetryPicksStored(cache, key.header, w.answer);
    assert ToText(first)[|first.ip|] == '#';
  }

  function LocalTo(w: World, s: nat): set<Endpoint> {
    set e | e in w.home && w.home[e] == s
  }

  /** With the servers agreeing with the store, two attempts are enough, whatever the client cached. */
  lemma AgreeingServersAcceptWithinTwo(known: set<Endpoint>, w: World, key: Key, views: map<nat, View>, cache: Cache,
                                       first: Endpoint, owner: Endpoint)
    requires Ready(w, key, cache, first, owner) && OnePodPerAddress(known)
    requires forall e :: e in w.home ==> AgreesWithStore(known, LocalTo(w, w.home[e]), ViewAt(views, w.home[e]), w.answer, key)
    ensures InvokeFrom(w, key, Session(views, cache, ""), 0) == Success(owner, if first == owner then 1 else 2)
  {
    var s, s' := w.home[first], w.home[owner];
    var v := ViewAt(views, s);
    var views' := views[s := ViewAfterRequest(v, w.answer, key, Some(first), None)];
    FirstAttempt(w, key, views, cache, first, owner);
    LaterAttempts(w, key, views', cache, first, owner);
    AgreementAcceptsOwner(known, LocalTo(w, s), v, w.answer, key, first, None);
    AgreementAcceptsOwner(known, LocalTo(w, s'), ViewAt(views', s'), w.answer, key, owner, Some(first));
  }

  /** With tables as stale as can be, a client whose first pick was the owner is served within two
      attempts: the rejection it reports makes the server look again. */
  lemma OwnerFirstAcceptedWithinTwo(w: World, key: Key, views: map<nat, View>, cache: Cache, owner: Endpoint)
    requires Ready(w, key, cache, owner, owner)
    ensures var r := InvokeFrom(w, key, Session(views, cache, ""), 0);
            r == Success(owner, 1) || r == Success(owner, 2)
  {
    var s := w.home[owner];
    FirstAttempt(w, key, views, cache, owner, owner);
    LaterAttempts(w, key, views[s := ViewAfterRequest(ViewAt(views, s), w.answer, key, Some(owner), None)], cache, owner, owner);
  }

  /** Exactly when all three attempts are rejected: the first pick was not the owner, its server did
      not believe it was, and the owner's server has an entry for somebody else, which nothing the
      client sends makes it reconsider. */
  lemma RetriesRunOutIff(w: World, key: Key, views: map<nat, View>, cache: Cache, first: Endpoint, owner: Endpoint)
    requires Ready(w, key, cache, first, owner)
    requires forall s, k :: s in views && k in views[s] ==> views[s][k] in w.home
    ensures var atFirst, atOwner := RouteIn(ViewAt(views, w.home[first]), key), RouteIn(ViewAt(views, w.home[owner]), key);
            InvokeFrom(w, key, Session(views, cache, ""), 0) == MaxRetries <==>
            first != owner && atFirst != Some(first) && atOwner.Some? && atOwner != Some(owner)
  {
    var s := w.home[first];
    var views' := views[s := ViewAfterRequest(ViewAt(views, s), w.answer, key, Some(first), None)];
    FirstAttempt(w, key, views, cache, first, owner);
    LaterAttempts(w, key, views', cache, first, owner);
  }
}
