/** The two halves together: the servers as a run leaves them, and a client that then sends a request. */
module EndToEnd {
  import opened Base
  import opened Endpoints
  import opened RouteStore
  import opened RoutingTables
  import opened Servers
  import opened Protocol
  import opened Agreement
  import opened ProtocolLimits
  import opened Recency
  import opened Directs
  import opened Clients

  function Views(st: State): map<nat, View> {
    map s | s in st.servers :: st.servers[s].view
  }

  /** The client knows the servers' own endpoints, and the key has settled for each of them after a run
      that was orderly for it. */
  ghost predicate KnowsSettledServers(world: set<Endpoint>, steps: seq<Step>, w: World, key: Key)
    requires IsRun(world, steps)
  {
    var st := After(world, steps);
    && w.answer == Stored(st.tables, key)
    && forall e :: e in w.home ==>
         && w.home[e] in st.servers && e in st.servers[w.home[e]].local
         && Settled(st, w.home[e], key) && IsOrderlyRun(world, steps, w.home[e], key)
  }

  /** A request for a settled key is served by the endpoint the store names, at the first or the second
      attempt, whatever registered endpoint the client cached. */
  lemma SettledRequestReachesOwner(world: set<Endpoint>, steps: seq<Step>, w: World, key: Key, cache: Cache,
                                   first: Endpoint, owner: Endpoint)
    requires GoodWorld(world) && IsRun(world, steps)
    requires KnowsSettledServers(world, steps, w, key) && Ready(w, key, cache, first, owner)
    ensures InvokeFrom(w, key, Session(Views(After(world, steps)), cache, ""), 0) ==
            Success(owner, if first == owner then 1 else 2)
  {
    var st := After(world, steps);
    forall e | e in w.home
      ensures AgreesWithStore(world, LocalTo(w, w.home[e]), ViewAt(Views(st), w.home[e]), w.answer, key)
    {
      SettledAgrees(world, steps, w.home[e], key);
    }
    AgreeingServersAcceptWithinTwo(world, w, key, Views(st), cache, first, owner);
  }

  // ---------- a run after which the retries run out ----------

  /** What a client knows of two endpoints with a server each, once the key has moved from `x` to `y`. */
  function TwoServers(x: Endpoint, y: Endpoint): World {
    World(map[x := 1, y := 0], Found(Some(y)))
  }

  /** The run was orderly for every server. */
  ghost predicate IsOrderlyForAll(world: set<Endpoint>, steps: seq<Step>, key: Key)
    requires IsRun(world, steps)
  {
    forall s :: IsOrderlyRun(world, steps, s, key)
  }

  lemma OrderlyAppend(world: set<Endpoint>, steps: seq<Step>, step: Step, key: Key)
    requires IsRun(world, steps) && Enabled(world, After(world, steps), step) && IsOrderlyForAll(world, steps, key)
    requires forall s :: IsOrderly(world, After(world, steps), step, s, key)
    ensures IsRun(world, steps + [step]) && IsOrderlyForAll(world, steps + [step], key)
  {
    var longer := steps + [step];
    assert longer[..|longer| - 1] == steps && longer[|longer| - 1] == step;
    forall s ensures IsOrderlyRun(world, longer, s, key) {
      assert IsOrderlyRun(world, steps, s, key);
    }
  }

  /** Steps other than a publication, a loss or a write are orderly whenever they present what they replace. */
  lemma OneFreeStep(world: set<Endpoint>, steps: seq<Step>, step: Step, key: Key) returns (longer: seq<Step>)
    requires IsRun(world, steps) && Enabled(world, After(world, steps), step) && IsOrderlyForAll(world, steps, key)
    requires !step.Publish? && !step.Lose? && !step.Write? && Presents(After(world, steps), step, key)
    ensures longer == steps + [step] && IsRun(world, longer) && IsOrderlyForAll(world, longer, key)
    ensures After(world, longer) == Next(world, After(world, steps), step)
  {
    longer := OneMoreStep(world, steps, step);
    OrderlyAppend(world, steps, step, key);
  }

  lemma BothJoin(world: set<Endpoint>, key: Key, x: Endpoint, y: Endpoint) returns (steps: seq<Step>)
    requires x in world && y in world
    ensures IsRun(world, steps) && IsOrderlyForAll(world, steps, key)
    ensures After(world, steps) ==
            START.(servers := map[0 := Server({y}, map[], 0, NotStarted, []), 1 := Server({x}, map[], 0, NotStarted, [])])
  {
    steps := OneFreeStep(world, [], Join(0, {y}), key);
    steps := OneFreeStep(world, steps, Join(1, {x}), key);
  }

  lemma TwoServersJoin(world: set<Endpoint>, key: Key, x: Endpoint, y: Endpoint) returns (steps: seq<Step>)
    requires TwoEndpoints(world, key, x, y)
    ensures IsRun(world, steps) && IsOrderlyForAll(world, steps, key)
    ensures After(world, steps) ==
            State(Holding(key, x), map[key := [Given(x)]], [],
                  map[0 := Server({y}, map[], 0, NotStarted, []), 1 := Server({x}, map[], 0, NotStarted, [])])
  {
    steps := BothJoin(world, key, x, y);
    steps := OneFreeStep(world, steps, Set(Call(key, x, None, 0, 1.0), None), key);
    assert [] + [Given(x)] == [Given(x)];
  }

  /** The server of `y` has written the store's answer while it was `x`. */
  lemma ForeignAnswerWritten(world: set<Endpoint>, key: Key, x: Endpoint, y: Endpoint) returns (steps: seq<Step>)
    requires TwoEndpoints(world, key, x, y)
    ensures IsRun(world, steps) && IsOrderlyForAll(world, steps, key)
    ensures After(world, steps) ==
            State(Holding(key, x), map[key := [Given(x)]], [],
                  map[0 := Server({y}, map[key := x], 0, NotStarted, []), 1 := Server({x}, map[], 0, NotStarted, [])])
  {
    steps := TwoServersJoin(world, key, x, y);
    StoredText(key, x);
    steps := OneFreeStep(world, steps, Request(0, key, Some(y), None), key);
    assert After(world, steps).servers[0].answers == [Answer(key, Some(x), 0)];
    OrderlyAppend(world, steps, Write(0, 0), key);
    steps := OneMoreStep(world, steps, Write(0, 0));
    assert After(world, steps).servers[0] == Server({y}, map[key := x], 0, NotStarted, []);
  }

  /** The move to `y` was published since, and the message waits in both queues. */
  lemma MoveWaits(world: set<Endpoint>, key: Key, x: Endpoint, y: Endpoint) returns (steps: seq<Step>)
    requires TwoEndpoints(world, key, x, y)
    ensures IsRun(world, steps) && IsOrderlyForAll(world, steps, key)
    ensures After(world, steps) ==
            State(Holding(key, y), map[key := [Given(x), Moved(x, y, true)]], [Message(key, 1, MigrationText(key, x, y))],
                  map[0 := Server({y}, map[key := x], 0, NotStarted, []), 1 := Server({x}, map[], 0, NotStarted, [])])
  {
    var before := ForeignAnswerWritten(world, key, x, y);
    var moved := Move(world, before, key, [Given(x)], x, y);
    assert [Given(x)] + [Moved(x, y, false)] == [Given(x), Moved(x, y, false)];
    OrderlyAppend(world, before, Set(Call(key, y, Some(x), 0, 1.0), None), key);
    steps := PublishMove(world, moved, key, [Given(x), Moved(x, y, false)], 1, x, y);
    assert [Given(x), Moved(x, y, false)][1 := Moved(x, y, true)] == [Given(x), Moved(x, y, true)];
    OrderlyAppend(world, moved, Publish(key, 1), key);
  }

  lemma LosingTables(world: set<Endpoint>, key: Key, x: Endpoint, y: Endpoint, capacity: U32)
    requires TwoEndpoints(world, key, x, y) && capacity > 0
    ensures InvokeFrom(TwoServers(x, y), key, Session(map[0 := map[key := x], 1 := map[]], Lru(capacity, [Cached(key.header, Some(x))]), ""), 0)
            == MaxRetries
  {
    var cache := Lru(capacity, [Cached(key.header, Some(x))]);
    assert KeysOf(cache.contents) == [key.header];
    RetriesRunOutIff(TwoServers(x, y), key, map[0 := map[key := x], 1 := map[]], cache, x, y);
  }

  /** The losing tables are reachable, and by an orderly run: a client that cached `x` before the move gives up
      while the message waits. */
  lemma RetriesRunOutWhileMoveWaits(world: set<Endpoint>, key: Key, x: Endpoint, y: Endpoint, capacity: U32) returns (steps: seq<Step>)
    requires TwoEndpoints(world, key, x, y) && capacity > 0
    ensures IsRun(world, steps) && IsOrderlyForAll(world, steps, key)
    ensures var st, w := After(world, steps), TwoServers(x, y);
            && w.answer == Stored(st.tables, key)
            && (forall e :: e in w.home ==> w.home[e] in st.servers && e in st.servers[w.home[e]].local)
            && InvokeFrom(w, key, Session(Views(st), Lru(capacity, [Cached(key.header, Some(x))]), ""), 0) == MaxRetries
  {
    steps := MoveWaits(world, key, x, y);
    StoredText(key, y);
    assert Views(After(world, steps)) == map[0 := map[key := x], 1 := map[]];
    LosingTables(world, key, x, y, capacity);
  }
}
