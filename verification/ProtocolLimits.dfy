/**
 Why agreement needs each part of an orderly run: a run that publishes out of order, one that writes an
 answer of the store too late, one that loses a message, and one that writes over a route whose deadline has
 passed, all with nothing left to publish or to read.
 */
module ProtocolLimits {
  import opened Base
  import opened Endpoints
  import opened RouteStore
  import opened Servers
  import opened Protocol
  import opened Agreement

  lemma OneMoreStep(world: set<Endpoint>, steps: seq<Step>, step: Step) returns (longer: seq<Step>)
    requires IsRun(world, steps) && Enabled(world, After(world, steps), step)
    ensures longer == steps + [step] && IsRun(world, longer)
    ensures After(world, longer) == Next(world, After(world, steps), step)
  {
    longer := steps + [step];
    assert longer[..|longer| - 1] == steps;
  }

  ghost predicate TwoEndpoints(world: set<Endpoint>, key: Key, x: Endpoint, y: Endpoint) {
    GoodWorld(world) && x in world && y in world && x != y && SpaceFreeKey(key)
  }

  /** The tables with one permanent route. */
  function Holding(key: Key, e: Endpoint): Tables {
    Tables(map[key := ToText(e)], map[key := -1.0])
  }

  /** A key that was given to `x`, as a client does it. */
  function Given(x: Endpoint): Entry {
    Entry(None, x, None, Done, true)
  }

  /** A move that a client made. */
  function Moved(x: Endpoint, y: Endpoint, sent: bool): Entry {
    Entry(Some(x), y, None, Done, sent)
  }

  /** The server accepts an endpoint that the store does not name, with nothing left to publish or to read. */
  ghost predicate SettledButWrong(st: State, s: nat, key: Key, accepted: Endpoint, stored: Endpoint) {
    && s in st.servers && accepted in st.servers[s].local && Settled(st, s, key)
    && st.servers[s].progress.NotStarted? && st.servers[s].answers == []
    && Stored(st.tables, key) == Found(Some(stored)) && accepted != stored
    && ServerAccepts(st, s, key, accepted, None)
  }

  lemma WrongIsNotOrderly(world: set<Endpoint>, steps: seq<Step>, s: nat, key: Key, accepted: Endpoint, stored: Endpoint)
    requires GoodWorld(world) && IsRun(world, steps) && SettledButWrong(After(world, steps), s, key, accepted, stored)
    ensures !IsOrderlyRun(world, steps, s, key)
  {
    if IsOrderlyRun(world, steps, s, key) {
      SettledAcceptsOwner(world, steps, s, key, accepted, None);
    }
  }

  lemma StoredText(key: Key, e: Endpoint)
    requires Plain(e)
    ensures Stored(Holding(key, e), key) == Found(Some(e))
  {
    TextRoundTrip(e);
    assert ToText(e)[|e.ip|] == '#';
  }

  /** A server with one endpoint joins, and a client gives the key to `x`. */
  lemma JoinAndGive(world: set<Endpoint>, key: Key, x: Endpoint, local: Endpoint) returns (steps: seq<Step>)
    requires GoodWorld(world) && x in world && local in world && SpaceFreeKey(key)
    ensures IsRun(world, steps)
    ensures After(world, steps) ==
            State(Holding(key, x), map[key := [Given(x)]], [], map[0 := Server({local}, map[], 0, NotStarted, [])])
  {
    steps := OneMoreStep(world, [], Join(0, {local}));
    steps := OneMoreStep(world, steps, Set(Call(key, x, None, 0, 1.0), None));
    assert [] + [Given(x)] == [Given(x)];
  }

  lemma Move(world: set<Endpoint>, steps: seq<Step>, key: Key, h: seq<Entry>, x: Endpoint, y: Endpoint) returns (longer: seq<Step>)
    requires IsRun(world, steps) && TwoEndpoints(world, key, x, y)
    requires After(world, steps).tables == Holding(key, x) && After(world, steps).history == map[key := h]
    ensures longer == steps + [Set(Call(key, y, Some(x), 0, 1.0), None)] && IsRun(world, longer)
    ensures After(world, longer) == After(world, steps).(tables := Holding(key, y), history := map[key := h + [Moved(x, y, false)]])
  {
    longer := OneMoreStep(world, steps, Set(Call(key, y, Some(x), 0, 1.0), None));
  }

  lemma PublishMove(world: set<Endpoint>, steps: seq<Step>, key: Key, h: seq<Entry>, i: nat, x: Endpoint, y: Endpoint) returns (longer: seq<Step>)
    requires IsRun(world, steps) && After(world, steps).history == map[key := h] && i < |h| && h[i] == Moved(x, y, false)
    ensures longer == steps + [Publish(key, i)] && IsRun(world, longer)
    ensures var st := After(world, steps);
            After(world, longer) == st.(history := map[key := h[i := Moved(x, y, true)]],
                                        log := st.log + [Message(key, i, MigrationText(key, x, y))])
  {
    longer := OneMoreStep(world, steps, Publish(key, i));
  }

  // ---------- published out of order ----------

  /** A key that moved from `x` to `y` and back. */
  function ThereAndBack(x: Endpoint, y: Endpoint, movedSent: bool, backSent: bool): seq<Entry> {
    [Given(x), Moved(x, y, movedSent), Moved(y, x, backSent)]
  }

  /** The move back is published before the move it undoes. */
  lemma PublishedBackwards(world: set<Endpoint>, key: Key, x: Endpoint, y: Endpoint) returns (steps: seq<Step>)
    requires TwoEndpoints(world, key, x, y)
    ensures IsRun(world, steps)
    ensures After(world, steps) ==
            State(Holding(key, x), map[key := ThereAndBack(x, y, true, true)],
                  [Message(key, 2, MigrationText(key, y, x)), Message(key, 1, MigrationText(key, x, y))],
                  map[0 := Server({y}, map[], 0, NotStarted, [])])
  {
    steps := JoinAndGive(world, key, x, y);
    steps := Move(world, steps, key, [Given(x)], x, y);
    assert [Given(x)] + [Moved(x, y, false)] == [Given(x), Moved(x, y, false)];
    steps := Move(world, steps, key, [Given(x), Moved(x, y, false)], y, x);
    assert [Given(x), Moved(x, y, false)] + [Moved(y, x, false)] == ThereAndBack(x, y, false, false);
    steps := PublishMove(world, steps, key, ThereAndBack(x, y, false, false), 2, y, x);
    assert ThereAndBack(x, y, false, false)[2 := Moved(y, x, true)] == ThereAndBack(x, y, false, true);
    steps := PublishMove(world, steps, key, ThereAndBack(x, y, false, true), 1, x, y);
    assert ThereAndBack(x, y, false, true)[1 := Moved(x, y, true)] == ThereAndBack(x, y, true, true);
  }

  /** One message of a move away from the server's table, or to it, read to its end. */
  lemma ReadMove(server: Server, log: seq<Message>, key: Key, i: nat, x: Endpoint, y: Endpoint)
    requires server.position < |log| && log[server.position] == Message(key, i, MigrationText(key, x, y))
    requires SpaceFreeKey(key) && SpaceFree(x) && SpaceFree(y) && Plain(x) && Plain(y)
    requires !EqualEndpoints(Some(x), Some(y)) && key !in server.view && server.progress.NotStarted?
    ensures var away := Delivered(server, log);
            y !in server.local ==> away == server.(position := server.position + 1)
    ensures var looking := Delivered(server, log);
            y in server.local ==>
              && looking == server.(progress := Cleared)
              && Delivered(looking, log) == server.(progress := Adding)
              && Delivered(Delivered(looking, log), log) ==
                   server.(view := server.view[key := y], position := server.position + 1, progress := NotStarted)
  {
    MigrationRoundTrip(key, x, y);
  }

  lemma DeliverOne(world: set<Endpoint>, steps: seq<Step>, s: nat) returns (longer: seq<Step>)
    requires IsRun(world, steps) && Enabled(world, After(world, steps), Deliver(s))
    ensures IsRun(world, longer)
    ensures var st := After(world, steps);
            After(world, longer) == st.(servers := st.servers[s := Delivered(st.servers[s], st.log)])
  {
    longer := OneMoreStep(world, steps, Deliver(s));
  }

  lemma ReadBackwards(world: set<Endpoint>, key: Key, x: Endpoint, y: Endpoint) returns (steps: seq<Step>)
    requires TwoEndpoints(world, key, x, y)
    ensures IsRun(world, steps)
    ensures After(world, steps) ==
            State(Holding(key, x), map[key := ThereAndBack(x, y, true, true)],
                  [Message(key, 2, MigrationText(key, y, x)), Message(key, 1, MigrationText(key, x, y))],
                  map[0 := Server({y}, map[key := y], 2, NotStarted, [])])
  {
    steps := PublishedBackwards(world, key, x, y);
    var log := After(world, steps).log;
    ReadMove(Server({y}, map[], 0, NotStarted, []), log, key, 2, y, x);
    ReadMove(Server({y}, map[], 1, NotStarted, []), log, key, 1, x, y);
    steps := DeliverOne(world, steps, 0);
    steps := DeliverOne(world, steps, 0);
    steps := DeliverOne(world, steps, 0);
    steps := DeliverOne(world, steps, 0);
  }

  /** Published out of order, the two moves leave the server of `y` accepting requests for a key the
      store gives to `x`. */
  lemma OutOfOrderPublishingDisagrees(world: set<Endpoint>, key: Key, x: Endpoint, y: Endpoint) returns (steps: seq<Step>)
    requires TwoEndpoints(world, key, x, y)
    ensures IsRun(world, steps) && SettledButWrong(After(world, steps), 0, key, y, x)
    ensures !IsOrderlyRun(world, steps, 0, key)
  {
    steps := ReadBackwards(world, key, x, y);
    StoredText(key, x);
    WrongIsNotOrderly(world, steps, 0, key, y, x);
  }

  // ---------- an answer written late ----------

  /** The server of `x` has read the store's answer. */
  lemma AnswerRead(world: set<Endpoint>, key: Key, x: Endpoint) returns (steps: seq<Step>)
    requires GoodWorld(world) && x in world && SpaceFreeKey(key)
    ensures IsRun(world, steps)
    ensures After(world, steps) ==
            State(Holding(key, x), map[key := [Given(x)]], [], map[0 := Server({x}, map[], 0, NotStarted, [Answer(key, Some(x), 0)])])
  {
    steps := JoinAndGive(world, key, x, x);
    StoredText(key, x);
    steps := OneMoreStep(world, steps, Request(0, key, Some(x), None));
    assert [] + [Answer(key, Some(x), 0)] == [Answer(key, Some(x), 0)];
  }

  /** The key moves from `x` to `y`, and the move is published. */
  lemma MoveAndPublish(world: set<Endpoint>, before: seq<Step>, key: Key, x: Endpoint, y: Endpoint) returns (steps: seq<Step>)
    requires TwoEndpoints(world, key, x, y) && IsRun(world, before)
    requires var st := After(world, before); st.tables == Holding(key, x) && st.history == map[key := [Given(x)]] && st.log == []
    ensures IsRun(world, steps)
    ensures After(world, steps) ==
            State(Holding(key, y), map[key := [Given(x), Moved(x, y, true)]], [Message(key, 1, MigrationText(key, x, y))],
                  After(world, before).servers)
  {
    steps := Move(world, before, key, [Given(x)], x, y);
    assert [Given(x)] + [Moved(x, y, false)] == [Given(x), Moved(x, y, false)];
    steps := PublishMove(world, steps, key, [Given(x), Moved(x, y, false)], 1, x, y);
    assert [Given(x), Moved(x, y, false)][1 := Moved(x, y, true)] == [Given(x), Moved(x, y, true)];
  }

  lemma LateAnswerWritten(world: set<Endpoint>, key: Key, x: Endpoint, y: Endpoint) returns (steps: seq<Step>)
    requires TwoEndpoints(world, key, x, y)
    ensures IsRun(world, steps)
    ensures After(world, steps) ==
            State(Holding(key, y), map[key := [Given(x), Moved(x, y, true)]], [Message(key, 1, MigrationText(key, x, y))],
                  map[0 := Server({x}, map[key := x], 1, NotStarted, [])])
  {
    steps := AnswerRead(world, key, x);
    steps := MoveAndPublish(world, steps, key, x, y);
    ReadMove(After(world, steps).servers[0], After(world, steps).log, key, 1, x, y);
    steps := DeliverOne(world, steps, 0);
    steps := OneMoreStep(world, steps, Write(0, 0));
    assert After(world, steps).servers[0] == Server({x}, map[key := x], 1, NotStarted, []);
  }

  /** The answer is written after the migration that outdates it was read: the server of `x` accepts requests
      for a key the store gives to `y`, and so does a server of `y` that joins. */
  lemma LateAnswerDisagrees(world: set<Endpoint>, key: Key, x: Endpoint, y: Endpoint) returns (steps: seq<Step>)
    requires TwoEndpoints(world, key, x, y)
    ensures IsRun(world, steps) && SettledButWrong(After(world, steps), 0, key, x, y)
    ensures !IsOrderlyRun(world, steps, 0, key)
    ensures var st := After(world, steps);
            1 in st.servers && y in st.servers[1].local && Settled(st, 1, key) && ServerAccepts(st, 1, key, y, None)
  {
    steps := LateAnswerWritten(world, key, x, y);
    steps := OneMoreStep(world, steps, Join(1, {y}));
    StoredText(key, y);
    WrongIsNotOrderly(world, steps, 0, key, x, y);
  }

  // ---------- a lost message ----------

  /** The message that takes the key away is lost: the server of `x` keeps accepting its requests. */
  lemma LostMessageDisagrees(world: set<Endpoint>, key: Key, x: Endpoint, y: Endpoint) returns (steps: seq<Step>)
    requires TwoEndpoints(world, key, x, y)
    ensures IsRun(world, steps) && SettledButWrong(After(world, steps), 0, key, x, y)
    ensures !IsOrderlyRun(world, steps, 0, key)
  {
    steps := AnswerRead(world, key, x);
    steps := OneMoreStep(world, steps, Write(0, 0));
    assert After(world, steps).servers[0] == Server({x}, map[key := x], 0, NotStarted, []);
    steps := MoveAndPublish(world, steps, key, x, y);
    steps := OneMoreStep(world, steps, Lose(0));
    StoredText(key, y);
    WrongIsNotOrderly(world, steps, 0, key, x, y);
  }

  // ---------- a deadline that passes ----------

  function Timed(key: Key, x: Endpoint): Call {
    Call(key, x, None, 10, 1.0)
  }

  lemma OneTimelyStep(world: set<Endpoint>, steps: seq<Step>, step: Step, s: nat, key: Key) returns (longer: seq<Step>)
    requires IsRun(world, steps) && Enabled(world, After(world, steps), step)
    requires IsTimelyRun(world, steps, s, key) && InTime(world, After(world, steps), step, s, key)
    ensures IsRun(world, longer) && IsTimelyRun(world, longer, s, key)
    ensures After(world, longer) == Next(world, After(world, steps), step)
  {
    longer := OneMoreStep(world, steps, step);
    assert longer[..|longer| - 1] == steps && longer[|longer| - 1] == step;
  }

  /** A server joins, and a client gives the key to `x` for ten milliseconds. */
  lemma JoinAndGiveTimed(world: set<Endpoint>, key: Key, x: Endpoint) returns (steps: seq<Step>)
    requires GoodWorld(world) && x in world && SpaceFreeKey(key)
    ensures IsRun(world, steps) && IsTimelyRun(world, steps, 0, key)
    ensures After(world, steps) ==
            State(Tables(map[key := ToText(x)], map[key := 11.0]), map[key := [Given(x)]], [],
                  map[0 := Server({x}, map[], 0, NotStarted, [])])
  {
    steps := OneTimelyStep(world, [], Join(0, {x}), 0, key);
    steps := OneTimelyStep(world, steps, Set(Timed(key, x), None), 0, key);
    assert [] + [Given(x)] == [Given(x)];
  }

  /** The server of `x` has written the store's answer while the route to `x` was in force. */
  lemma TimedAnswerWritten(world: set<Endpoint>, key: Key, x: Endpoint) returns (steps: seq<Step>)
    requires GoodWorld(world) && x in world && SpaceFreeKey(key)
    ensures IsRun(world, steps) && IsTimelyRun(world, steps, 0, key)
    ensures After(world, steps) ==
            State(Tables(map[key := ToText(x)], map[key := 11.0]), map[key := [Given(x)]], [],
                  map[0 := Server({x}, map[key := x], 0, NotStarted, [])])
  {
    steps := JoinAndGiveTimed(world, key, x);
    TextRoundTrip(x);
    assert ToText(x)[|x.ip|] == '#';
    steps := OneTimelyStep(world, steps, Request(0, key, Some(x), None), 0, key);
    assert After(world, steps).servers[0].answers == [Answer(key, Some(x), 0)];
    steps := OneTimelyStep(world, steps, Write(0, 0), 0, key);
    assert After(world, steps).servers[0] == Server({x}, map[key := x], 0, NotStarted, []);
  }

  /** Once its deadline has passed, a client that presents nothing gives the key to `y`, which reports success
      and publishes nothing: the server of `x` keeps accepting its requests. */
  lemma PassedDeadlineDisagrees(world: set<Endpoint>, key: Key, x: Endpoint, y: Endpoint) returns (steps: seq<Step>)
    requires TwoEndpoints(world, key, x, y)
    ensures IsRun(world, steps) && SettledButWrong(After(world, steps), 0, key, x, y)
    ensures !IsOrderlyRun(world, steps, 0, key) && IsTimelyRun(world, steps, 0, key)
  {
    var before := TimedAnswerWritten(world, key, x);
    var call := Call(key, y, None, 0, 20.0);
    steps := OneTimelyStep(world, before, Set(call, None), 0, key);
    assert [Given(x)] + [Given(y)] == [Given(x), Given(y)];
    assert After(world, steps).tables == Holding(key, y);
    StoredText(key, y);
    WrongIsNotOrderly(world, steps, 0, key, x, y);
  }
}
