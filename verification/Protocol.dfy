/**
 The keyed-routing protocol as a step system. Setters change the store by compare-and-set; a setter that
 replaced a route then applies the migration to its own table, if it is a server, and publishes it. Every
 server reads the published messages in order, and asks the store whenever a request makes it.

 A step is one access to shared state: a migration takes the table's lock up to three times, and a store
 answer is read in one step and written into the table in a later one. Any steps may come in between. A
 message may also be lost to a server, as when it is published before the server has subscribed.

 Routes may have deadlines, and are not removed. `history` records the successful calls on a key;
 it, and the `key` and `index` of a message or an answer, are bookkeeping that no participant reads.
 */
module Protocol {
  import opened Base
  import opened Endpoints
  import opened RouteStore
  import opened RoutingTables
  import opened Servers

  datatype Entry = Entry(from: Option<Endpoint>, to: Endpoint, setter: Option<nat>, progress: Progress, sent: bool)

  datatype Message = Message(key: Key, index: nat, payload: string)

  /** An answer of the store that a request has read but not yet written into the table. */
  datatype Answer = Answer(key: Key, endpoint: Option<Endpoint>, index: nat)

  /** `progress` is that of the message at `position`. */
  datatype Server = Server(local: set<Endpoint>, view: View, position: nat, progress: Progress, answers: seq<Answer>)

  type Histories = map<Key, seq<Entry>>

  datatype State = State(
    tables: Tables,
    history: Histories,
    log: seq<Message>,
    servers: map<nat, Server>)

  const START := State(EMPTY_TABLES, map[], [], map[])

  datatype Step =
    | Join(s: nat, local: set<Endpoint>)
    | Set(call: Call, setter: Option<nat>)
    | ApplyOwn(key: Key, index: nat)
    | Publish(key: Key, index: nat)
    | Deliver(s: nat)
    | Lose(s: nat)
    | Request(s: nat, key: Key, endpoint: Option<Endpoint>, last: Option<Endpoint>)
    | Write(s: nat, i: nat)

  function History(hs: Histories, key: Key): seq<Entry> {
    if key in hs then hs[key] else []
  }

  /** The endpoints that ever take part: one pod per address, with texts that survive the wire. */
  ghost predicate GoodWorld(world: set<Endpoint>) {
    OnePodPerAddress(world) && forall e :: e in world ==> Plain(e) && SpaceFree(e)
  }

  ghost predicate Enabled(world: set<Endpoint>, st: State, step: Step) {
    match step
    case Join(s, local) => s !in st.servers && local <= world
    case Set(call, setter) =>
      && SpaceFreeKey(call.key) && call.now >= 1.0
      && call.endpoint in world && (call.presented.Some? ==> call.presented.value in world)
      && (setter.Some? ==> setter.value in st.servers)
    case ApplyOwn(key, index) =>
      && index < |History(st.history, key)|
      && (var entry := History(st.history, key)[index];
          && entry.from.Some? && entry.setter.Some? && entry.setter.value in st.servers
          && !entry.progress.Done? && !entry.sent)
    case Publish(key, index) =>
      && index < |History(st.history, key)|
      && (var entry := History(st.history, key)[index]; entry.from.Some? && entry.progress.Done? && !entry.sent)
    case Deliver(s) => s in st.servers && st.servers[s].position < |st.log|
    case Lose(s) => s in st.servers && st.servers[s].position < |st.log| && st.servers[s].progress.NotStarted?
    case Request(s, _, _, _) => s in st.servers
    case Write(s, i) => s in st.servers && i < |st.servers[s].answers|
  }

  function Put(hs: Histories, key: Key, index: nat, entry: Entry): Histories
    requires index < |History(hs, key)|
  {
    hs[key := History(hs, key)[index := entry]]
  }

  function MigrationOf(key: Key, entry: Entry): Migration {
    Migration(key, entry.from, Some(entry.to))
  }

  /** The server after the next part of the message it is reading; a message that does not parse is dropped. */
  function Delivered(server: Server, log: seq<Message>): Server
    requires server.position < |log|
  {
    match ParseMigration(log[server.position].payload)
    case None => server.(position := server.position + 1, progress := NotStarted)
    case Some(m) =>
      var (v, p) := Advanced(server.local, server.view, m, server.progress);
      if p.Done? then server.(view := v, position := server.position + 1, progress := NotStarted)
      else server.(view := v, progress := p)
  }

  /** A request for which the server asks the store leaves the answer to be written. */
  function Requested(server: Server, tables: Tables, h: seq<Entry>, key: Key, endpoint: Option<Endpoint>, last: Option<Endpoint>): Server {
    if !AsksStore(server.view, key, endpoint, last) then server
    else
      match Stored(tables, key)
      case NoCustomRoute => server
      case Found(e) => server.(answers := server.answers + [Answer(key, e, if h == [] then 0 else |h| - 1)])
  }

  function Written(server: Server, i: nat): Server
    requires i < |server.answers|
  {
    var a := server.answers[i];
    server.(view := WithRoute(server.view, a.key, a.endpoint), answers := server.answers[..i] + server.answers[i + 1..])
  }

  ghost function Next(world: set<Endpoint>, st: State, step: Step): State
    requires Enabled(world, st, step)
  {
    match step
    case Join(s, local) => st.(servers := st.servers[s := Server(local, map[], |st.log|, NotStarted, [])])
    case Set(call, setter) =>
      if !CallWrites(st.tables, call) then st
      else
        // A call that presents nothing publishes nothing.
        var entry := Entry(call.presented, call.endpoint, setter, if setter.None? then Done else NotStarted, call.presented.None?);
        st.(tables := AfterCall(st.tables, call), history := st.history[call.key := History(st.history, call.key) + [entry]])
    case ApplyOwn(key, index) =>
      var entry := History(st.history, key)[index];
      var server := st.servers[entry.setter.value];
      var (v, p) := Advanced(server.local, server.view, MigrationOf(key, entry), entry.progress);
      st.(history := Put(st.history, key, index, entry.(progress := p)), servers := st.servers[entry.setter.value := server.(view := v)])
    case Publish(key, index) =>
      var entry := History(st.history, key)[index];
      var message := Message(key, index, MigrationText(key, entry.from.value, entry.to));
      st.(history := Put(st.history, key, index, entry.(sent := true)), log := st.log + [message])
    case Deliver(s) => st.(servers := st.servers[s := Delivered(st.servers[s], st.log)])
    case Lose(s) => st.(servers := st.servers[s := st.servers[s].(position := st.servers[s].position + 1)])
    case Request(s, key, endpoint, last) =>
      st.(servers := st.servers[s := Requested(st.servers[s], st.tables, History(st.history, key), key, endpoint, last)])
    case Write(s, i) => st.(servers := st.servers[s := Written(st.servers[s], i)])
  }

  // ---------- runs ----------

  /** Runs from the empty system, every step enabled when it is taken. */
  ghost predicate IsRun(world: set<Endpoint>, steps: seq<Step>)
    decreases |steps|, 0
  {
    steps == [] ||
    (IsRun(world, steps[..|steps| - 1]) && Enabled(world, After(world, steps[..|steps| - 1]), steps[|steps| - 1]))
  }

  ghost function After(world: set<Endpoint>, steps: seq<Step>): State
    requires IsRun(world, steps)
    decreases |steps|, 1
  {
    if steps == [] then START else Next(world, After(world, steps[..|steps| - 1]), steps[|steps| - 1])
  }

  /** A request is decided by the entry it finds, or by the store's answer when it asks. */
  predicate ServerAccepts(st: State, s: nat, key: Key, e: Endpoint, last: Option<Endpoint>)
    requires s in st.servers
  {
    Accepts(st.servers[s].view, Stored(st.tables, key), key, Some(e), last)
  }

  // ---------- what holds however messages and answers are ordered ----------

  /** The store and the history of a key agree. */
  ghost predicate KeyOk(world: set<Endpoint>, tables: Tables, key: Key, h: seq<Entry>) {
    && (if h == [] then key !in tables.routes && key !in tables.deadlines
        else
          && SpaceFreeKey(key)
          && key in tables.routes && tables.routes[key] == ToText(h[|h| - 1].to)
          && key in tables.deadlines)
    && (forall i :: 0 <= i < |h| ==> h[i].to in world && (h[i].from.Some? ==> h[i].from.value in world))
  }

  ghost predicate MessageOk(h: seq<Entry>, m: Message) {
    && m.index < |h| && h[m.index].sent && h[m.index].from.Some?
    && m.payload == MigrationText(m.key, h[m.index].from.value, h[m.index].to)
  }

  ghost predicate AnswerOk(h: seq<Entry>, a: Answer) {
    a.index < |h| && a.endpoint == Some(h[a.index].to)
  }

  /** An entry is a value its key once had. */
  ghost predicate RouteOk(v: View, key: Key, h: seq<Entry>) {
    key in v ==> exists q :: 0 <= q < |h| && h[q].to == v[key]
  }

  ghost predicate ServerOk(world: set<Endpoint>, hs: Histories, log: seq<Message>, server: Server) {
    && server.local <= world && server.position <= |log| && !server.progress.Done?
    && (forall i :: 0 <= i < |server.answers| ==> AnswerOk(History(hs, server.answers[i].key), server.answers[i]))
    && (forall key :: RouteOk(server.view, key, History(hs, key)))
  }

  ghost predicate KeysOk(world: set<Endpoint>, tables: Tables, hs: Histories) {
    forall key :: KeyOk(world, tables, key, History(hs, key))
  }

  ghost predicate LogOk(hs: Histories, log: seq<Message>) {
    forall j :: 0 <= j < |log| ==> MessageOk(History(hs, log[j].key), log[j])
  }

  ghost predicate Sound(world: set<Endpoint>, st: State) {
    && KeysOk(world, st.tables, st.history)
    && LogOk(st.history, st.log)
    && forall s :: s in st.servers ==> ServerOk(world, st.history, st.log, st.servers[s])
  }

  lemma StoredIsLast(world: set<Endpoint>, tables: Tables, key: Key, h: seq<Entry>)
    requires GoodWorld(world) && KeyOk(world, tables, key, h)
    ensures Stored(tables, key) == if h == [] then NoCustomRoute else Found(Some(h[|h| - 1].to))
  {
    if h != [] {
      var e := h[|h| - 1].to;
      TextRoundTrip(e);
      assert ToText(e)[|e.ip|] == '#';
    }
  }

  /** The histories only grew, or had their bookkeeping marks changed. */
  ghost predicate Extends(hs: Histories, hs': Histories) {
    forall key :: ExtendsAt(History(hs, key), History(hs', key))
  }

  ghost predicate ExtendsAt(h: seq<Entry>, h': seq<Entry>) {
    |h| <= |h'| && forall i :: 0 <= i < |h| ==> SameMigration(h[i], h'[i])
  }

  ghost predicate SameMigration(a: Entry, b: Entry) {
    a.to == b.to && a.from == b.from && (a.sent ==> b.sent)
  }

  lemma GrowthKeepsServerOk(world: set<Endpoint>, hs: Histories, hs': Histories, log: seq<Message>, log': seq<Message>, server: Server)
    requires ServerOk(world, hs, log, server) && |log| <= |log'| && Extends(hs, hs')
    ensures ServerOk(world, hs', log', server)
  {
    forall key ensures RouteOk(server.view, key, History(hs', key)) {
      assert RouteOk(server.view, key, History(hs, key)) && ExtendsAt(History(hs, key), History(hs', key));
    }
    forall i | 0 <= i < |server.answers| ensures AnswerOk(History(hs', server.answers[i].key), server.answers[i]) {
      assert ExtendsAt(History(hs, server.answers[i].key), History(hs', server.answers[i].key));
    }
  }

  lemma GrowthKeepsLogOk(hs: Histories, hs': Histories, log: seq<Message>)
    requires LogOk(hs, log) && Extends(hs, hs')
    ensures LogOk(hs', log)
  {
    forall j | 0 <= j < |log| ensures MessageOk(History(hs', log[j].key), log[j]) {
      assert ExtendsAt(History(hs, log[j].key), History(hs', log[j].key));
    }
  }

  lemma SetKeepsKeyOk(world: set<Endpoint>, tables: Tables, h: seq<Entry>, call: Call, entry: Entry)
    requires GoodWorld(world) && KeyOk(world, tables, call.key, h) && CallWrites(tables, call)
    requires SpaceFreeKey(call.key) && call.now >= 1.0
    requires call.endpoint in world && (call.presented.Some? ==> call.presented.value in world)
    requires entry.from == call.presented && entry.to == call.endpoint
    ensures KeyOk(world, AfterCall(tables, call), call.key, h + [entry])
  {
  }

  lemma SetKeepsKeysOk(world: set<Endpoint>, tables: Tables, hs: Histories, hs': Histories, call: Call, entry: Entry)
    requires KeysOk(world, tables, hs) && CallWrites(tables, call)
    requires hs' == hs[call.key := History(hs, call.key) + [entry]]
    requires KeyOk(world, AfterCall(tables, call), call.key, History(hs, call.key) + [entry])
    ensures KeysOk(world, AfterCall(tables, call), hs') && Extends(hs, hs')
  {
    forall k ensures KeyOk(world, AfterCall(tables, call), k, History(hs', k)) {
      assert KeyOk(world, tables, k, History(hs, k));
    }
  }

  lemma SetKeepsSound(world: set<Endpoint>, st: State, step: Step)
    requires GoodWorld(world) && Sound(world, st) && step.Set? && Enabled(world, st, step)
    ensures Sound(world, Next(world, st, step)) && Extends(st.history, Next(world, st, step).history)
  {
    var st' := Next(world, st, step);
    var call := step.call;
    if CallWrites(st.tables, call) {
      var entry := st'.history[call.key][|History(st.history, call.key)|];
      assert KeyOk(world, st.tables, call.key, History(st.history, call.key));
      SetKeepsKeyOk(world, st.tables, History(st.history, call.key), call, entry);
      SetKeepsKeysOk(world, st.tables, st.history, st'.history, call, entry);
      GrowthKeepsLogOk(st.history, st'.history, st.log);
      forall s | s in st'.servers ensures ServerOk(world, st'.history, st'.log, st'.servers[s]) {
        GrowthKeepsServerOk(world, st.history, st'.history, st.log, st'.log, st.servers[s]);
      }
    }
  }

  lemma PutKeepsKeysOk(world: set<Endpoint>, tables: Tables, hs: Histories, key: Key, index: nat, entry: Entry)
    requires KeysOk(world, tables, hs) && index < |History(hs, key)| && SameMigration(History(hs, key)[index], entry)
    ensures KeysOk(world, tables, Put(hs, key, index, entry)) && Extends(hs, Put(hs, key, index, entry))
  {
    var hs' := Put(hs, key, index, entry);
    forall k ensures KeyOk(world, tables, k, History(hs', k)) {
      assert KeyOk(world, tables, k, History(hs, k));
    }
  }

  /** The next part of a migration leaves every entry alone, but for its own key's, which it may remove or
      replace by its target. */
  lemma AdvancedKeepsRoutes(local: set<Endpoint>, v: View, m: Migration, p: Progress, hs: Histories, index: nat)
    requires forall key :: RouteOk(v, key, History(hs, key))
    requires index < |History(hs, m.key)| && m.to == Some(History(hs, m.key)[index].to)
    ensures forall key :: RouteOk(Advanced(local, v, m, p).0, key, History(hs, key))
  {
    var v' := Advanced(local, v, m, p).0;
    forall key ensures RouteOk(v', key, History(hs, key)) {
      assert RouteOk(v, key, History(hs, key));
    }
  }

  lemma ApplyOwnKeepsSound(world: set<Endpoint>, st: State, step: Step)
    requires GoodWorld(world) && Sound(world, st) && step.ApplyOwn? && Enabled(world, st, step)
    ensures Sound(world, Next(world, st, step)) && Extends(st.history, Next(world, st, step).history)
  {
    var st' := Next(world, st, step);
    var entry := History(st.history, step.key)[step.index];
    var setter := st.servers[entry.setter.value];
    PutKeepsKeysOk(world, st.tables, st.history, step.key, step.index, History(st'.history, step.key)[step.index]);
    GrowthKeepsLogOk(st.history, st'.history, st.log);
    AdvancedKeepsRoutes(setter.local, setter.view, MigrationOf(step.key, entry), entry.progress, st.history, step.index);
    forall s | s in st'.servers ensures ServerOk(world, st'.history, st'.log, st'.servers[s]) {
      GrowthKeepsServerOk(world, st.history, st'.history, st.log, st'.log, st'.servers[s]);
    }
  }

  lemma PublishKeepsSound(world: set<Endpoint>, st: State, step: Step)
    requires GoodWorld(world) && Sound(world, st) && step.Publish? && Enabled(world, st, step)
    ensures Sound(world, Next(world, st, step)) && Extends(st.history, Next(world, st, step).history)
  {
    var st' := Next(world, st, step);
    PutKeepsKeysOk(world, st.tables, st.history, step.key, step.index, History(st'.history, step.key)[step.index]);
    GrowthKeepsLogOk(st.history, st'.history, st.log);
    forall s | s in st'.servers ensures ServerOk(world, st'.history, st'.log, st'.servers[s]) {
      GrowthKeepsServerOk(world, st.history, st'.history, st.log, st'.log, st.servers[s]);
    }
  }

  /** What arrives is what was published, so delivery applies the migration the history records. */
  lemma DeliveredIsMigration(world: set<Endpoint>, st: State, server: Server)
    requires GoodWorld(world) && Sound(world, st) && server.position < |st.log|
    ensures var m := st.log[server.position];
            var h := History(st.history, m.key);
            && m.index < |h| && h[m.index].from.Some? && h[m.index].sent
            && ParseMigration(m.payload) == Some(MigrationOf(m.key, h[m.index]))
  {
    var m := st.log[server.position];
    var h := History(st.history, m.key);
    assert MessageOk(h, m) && KeyOk(world, st.tables, m.key, h);
    MigrationRoundTrip(m.key, h[m.index].from.value, h[m.index].to);
  }

  lemma DeliverKeepsServerOk(world: set<Endpoint>, st: State, server: Server)
    requires GoodWorld(world) && Sound(world, st) && ServerOk(world, st.history, st.log, server) && server.position < |st.log|
    ensures ServerOk(world, st.history, st.log, Delivered(server, st.log))
  {
    var m := st.log[server.position];
    DeliveredIsMigration(world, st, server);
    AdvancedKeepsRoutes(server.local, server.view, MigrationOf(m.key, History(st.history, m.key)[m.index]), server.progress, st.history, m.index);
  }

  lemma RequestKeepsServerOk(world: set<Endpoint>, st: State, server: Server, key: Key, endpoint: Option<Endpoint>, last: Option<Endpoint>)
    requires GoodWorld(world) && Sound(world, st) && ServerOk(world, st.history, st.log, server)
    ensures ServerOk(world, st.history, st.log, Requested(server, st.tables, History(st.history, key), key, endpoint, last))
  {
    assert KeyOk(world, st.tables, key, History(st.history, key));
    StoredIsLast(world, st.tables, key, History(st.history, key));
  }

  lemma WriteKeepsServerOk(world: set<Endpoint>, hs: Histories, log: seq<Message>, server: Server, i: nat)
    requires ServerOk(world, hs, log, server) && i < |server.answers|
    ensures ServerOk(world, hs, log, Written(server, i))
  {
    var server' := Written(server, i);
    assert AnswerOk(History(hs, server.answers[i].key), server.answers[i]);
    forall key ensures RouteOk(server'.view, key, History(hs, key)) {
      assert RouteOk(server.view, key, History(hs, key));
    }
  }

  lemma StepKeepsSound(world: set<Endpoint>, st: State, step: Step)
    requires GoodWorld(world) && Sound(world, st) && Enabled(world, st, step)
    ensures Sound(world, Next(world, st, step)) && Extends(st.history, Next(world, st, step).history)
  {
    match step
    case Join(s, _) => OneServerMoves(world, st, s, Next(world, st, step).servers[s]);
    case Set(_, _) => SetKeepsSound(world, st, step);
    case ApplyOwn(_, _) => ApplyOwnKeepsSound(world, st, step);
    case Publish(_, _) => PublishKeepsSound(world, st, step);
    case Deliver(s) =>
      DeliverKeepsServerOk(world, st, st.servers[s]);
      OneServerMoves(world, st, s, Next(world, st, step).servers[s]);
    case Lose(s) => OneServerMoves(world, st, s, Next(world, st, step).servers[s]);
    case Request(s, key, endpoint, last) =>
      RequestKeepsServerOk(world, st, st.servers[s], key, endpoint, last);
      OneServerMoves(world, st, s, Next(world, st, step).servers[s]);
    case Write(s, i) =>
      WriteKeepsServerOk(world, st.history, st.log, st.servers[s], i);
      OneServerMoves(world, st, s, Next(world, st, step).servers[s]);
  }

  lemma OneServerMoves(world: set<Endpoint>, st: State, s: nat, moved: Server)
    requires Sound(world, st) && ServerOk(world, st.history, st.log, moved)
    ensures Sound(world, st.(servers := st.servers[s := moved])) && Extends(st.history, st.history)
  {
  }

  lemma {:induction false} RunKeepsSound(world: set<Endpoint>, steps: seq<Step>)
    requires GoodWorld(world) && IsRun(world, steps)
    ensures Sound(world, After(world, steps))
  {
    if steps != [] {
      RunKeepsSound(world, steps[..|steps| - 1]);
      StepKeepsSound(world, After(world, steps[..|steps| - 1]), steps[|steps| - 1]);
    }
  }

  // ---------- exactly when a server is right ----------

  /** What a step does to a server's entry for a key. */
  datatype Touch = Untouched | Removed | Wrote(index: nat)

  function MigrationTouch(local: set<Endpoint>, entry: Entry, index: nat, p: Progress): Touch {
    match p
    case NotStarted =>
      if entry.from.Some? && entry.from.value in local && !EqualEndpoints(entry.from, Some(entry.to)) then Removed else Untouched
    case Adding => Wrote(index)
    case _ => Untouched
  }

  ghost function TouchOf(world: set<Endpoint>, st: State, step: Step, s: nat, key: Key): Touch
    requires Enabled(world, st, step)
  {
    match step
    case Join(s', _) => if s' == s then Removed else Untouched
    case ApplyOwn(k, index) =>
      var entry := History(st.history, k)[index];
      if k == key && entry.setter == Some(s) then MigrationTouch(st.servers[s].local, entry, index, entry.progress) else Untouched
    case Deliver(s') =>
      var m := st.log[st.servers[s'].position];
      if s' == s && m.key == key && m.index < |History(st.history, key)| then
        MigrationTouch(st.servers[s].local, History(st.history, key)[m.index], m.index, st.servers[s].progress)
      else Untouched
    case Write(s', i) =>
      if s' == s && st.servers[s].answers[i].key == key then Wrote(st.servers[s].answers[i].index) else Untouched
    case _ => Untouched
  }

  /** The place in the key's history of the last migration or store answer that was written to the server's
      entry, unless the entry was removed since. */
  ghost function LastWritten(world: set<Endpoint>, steps: seq<Step>, s: nat, key: Key): Option<nat>
    requires IsRun(world, steps)
  {
    if steps == [] then None
    else
      var init := steps[..|steps| - 1];
      WrittenAfter(LastWritten(world, init, s, key), TouchOf(world, After(world, init), steps[|steps| - 1], s, key))
  }

  function WrittenAfter(before: Option<nat>, touch: Touch): Option<nat> {
    match touch
    case Untouched => before
    case Removed => None
    case Wrote(index) => Some(index)
  }

  ghost function Touched(before: Option<Endpoint>, touch: Touch, h: seq<Entry>): Option<Endpoint> {
    match touch
    case Untouched => before
    case Removed => None
    case Wrote(index) => if index < |h| then Some(h[index].to) else None
  }

  ghost function EntryOf(st: State, s: nat, key: Key): Option<Endpoint> {
    if s in st.servers then RouteIn(st.servers[s].view, key) else None
  }

  /** The next part of a migration does to the entry of its own key what `MigrationTouch` says. */
  lemma MigrationTouchIsTrue(local: set<Endpoint>, v: View, k: Key, entry: Entry, h: seq<Entry>, index: nat, p: Progress, key: Key)
    requires index < |h| && h[index] == entry
    ensures var touch := if k == key then MigrationTouch(local, entry, index, p) else Untouched;
            RouteIn(Advanced(local, v, MigrationOf(k, entry), p).0, key) == Touched(RouteIn(v, key), touch, h)
  {
  }

  lemma DeliverTouchIsTrue(world: set<Endpoint>, st: State, server: Server, key: Key)
    requires GoodWorld(world) && Sound(world, st) && server.position < |st.log|
    ensures var m, h := st.log[server.position], History(st.history, key);
            var touch := if m.key == key && m.index < |h| then MigrationTouch(server.local, h[m.index], m.index, server.progress) else Untouched;
            && RouteIn(Delivered(server, st.log).view, key) == Touched(RouteIn(server.view, key), touch, h)
            && (touch.Wrote? ==> touch.index < |h|)
  {
    var m := st.log[server.position];
    var h := History(st.history, m.key);
    DeliveredIsMigration(world, st, server);
    MigrationTouchIsTrue(server.local, server.view, m.key, h[m.index], h, m.index, server.progress, key);
  }

  lemma WriteTouchIsTrue(world: set<Endpoint>, st: State, server: Server, i: nat, key: Key)
    requires Sound(world, st) && ServerOk(world, st.history, st.log, server) && i < |server.answers|
    ensures var h, a := History(st.history, key), server.answers[i];
            && RouteIn(Written(server, i).view, key) == Touched(RouteIn(server.view, key), if a.key == key then Wrote(a.index) else Untouched, h)
            && (a.key == key ==> a.index < |h|)
  {
    assert AnswerOk(History(st.history, server.answers[i].key), server.answers[i]);
  }

  lemma ApplyOwnTouchIsTrue(world: set<Endpoint>, st: State, k: Key, index: nat, s: nat, key: Key)
    requires Enabled(world, st, ApplyOwn(k, index))
    ensures var touch := TouchOf(world, st, ApplyOwn(k, index), s, key);
            && EntryOf(Next(world, st, ApplyOwn(k, index)), s, key) == Touched(EntryOf(st, s, key), touch, History(st.history, key))
            && (touch.Wrote? ==> touch.index < |History(st.history, key)|)
  {
    var entry := History(st.history, k)[index];
    var server := st.servers[entry.setter.value];
    MigrationTouchIsTrue(server.local, server.view, k, entry, History(st.history, k), index, entry.progress, key);
  }

  predicate TouchesTables(step: Step) {
    step.ApplyOwn? || step.Deliver? || step.Write?
  }

  lemma OthersTouchNothing(world: set<Endpoint>, st: State, step: Step, s: nat, key: Key)
    requires Enabled(world, st, step) && !TouchesTables(step)
    ensures var touch := TouchOf(world, st, step, s, key);
            && !touch.Wrote?
            && EntryOf(Next(world, st, step), s, key) == Touched(EntryOf(st, s, key), touch, History(st.history, key))
  {
  }

  lemma TouchIsTrue(world: set<Endpoint>, st: State, step: Step, s: nat, key: Key)
    requires GoodWorld(world) && Sound(world, st) && Enabled(world, st, step)
    ensures var touch := TouchOf(world, st, step, s, key);
            && EntryOf(Next(world, st, step), s, key) == Touched(EntryOf(st, s, key), touch, History(st.history, key))
            && (touch.Wrote? ==> touch.index < |History(st.history, key)|)
  {
    if !TouchesTables(step) {
      OthersTouchNothing(world, st, step, s, key);
    } else if step.ApplyOwn? {
      ApplyOwnTouchIsTrue(world, st, step.key, step.index, s, key);
    } else if step.s == s {
      if step.Deliver? {
        DeliverTouchIsTrue(world, st, st.servers[s], key);
      } else {
        WriteTouchIsTrue(world, st, st.servers[s], step.i, key);
      }
    }
  }

  ghost predicate EntryIs(entry: Option<Endpoint>, w: Option<nat>, h: seq<Entry>) {
    match w
    case None => entry == None
    case Some(i) => i < |h| && entry == Some(h[i].to)
  }

  lemma TouchKeepsEntry(before: Option<Endpoint>, w: Option<nat>, touch: Touch, h: seq<Entry>, h': seq<Entry>)
    requires EntryIs(before, w, h) && ExtendsAt(h, h') && (touch.Wrote? ==> touch.index < |h|)
    ensures EntryIs(Touched(before, touch, h), WrittenAfter(w, touch), h')
  {
  }

  lemma {:induction false} EntryIsLastWritten(world: set<Endpoint>, steps: seq<Step>, s: nat, key: Key)
    requires GoodWorld(world) && IsRun(world, steps)
    ensures EntryIs(EntryOf(After(world, steps), s, key), LastWritten(world, steps, s, key), History(After(world, steps).history, key))
  {
    if steps != [] {
      var init, step := steps[..|steps| - 1], steps[|steps| - 1];
      var st, w := After(world, init), LastWritten(world, init, s, key);
      EntryIsLastWritten(world, init, s, key);
      RunKeepsSound(world, init);
      TouchIsTrue(world, st, step, s, key);
      StepKeepsSound(world, st, step);
      var h, h' := History(st.history, key), History(Next(world, st, step).history, key);
      assert ExtendsAt(h, h');
      TouchKeepsEntry(EntryOf(st, s, key), w, TouchOf(world, st, step, s, key), h, h');
    }
  }

  /** The server accepts exactly the requests for the endpoint that the store names, among its own. */
  ghost predicate IsRight(st: State, s: nat, key: Key)
    requires s in st.servers
  {
    forall e, last :: e in st.servers[s].local ==> (ServerAccepts(st, s, key, e, last) <==> Stored(st.tables, key) == Found(Some(e)))
  }

  /** At any moment of any run, however its messages and answers were ordered or lost, a server is right about
      a key if and only if it has no entry, or the last value written there looks the same to the server as the
      last value the store was given. */
  lemma RightIffLastWrittenIsCurrent(world: set<Endpoint>, steps: seq<Step>, s: nat, key: Key)
    requires GoodWorld(world) && IsRun(world, steps) && s in After(world, steps).servers
    ensures var st := After(world, steps);
            var h, w, local := History(st.history, key), LastWritten(world, steps, s, key), st.servers[s].local;
            && (w.Some? ==> w.value < |h|)
            && (IsRight(st, s, key) <==>
                (w.Some? ==> LocalPart(local, Some(h[w.value].to)) == LocalPart(local, Some(h[|h| - 1].to))))
  {
    var st := After(world, steps);
    var h, w, local := History(st.history, key), LastWritten(world, steps, s, key), st.servers[s].local;
    RunKeepsSound(world, steps);
    EntryIsLastWritten(world, steps, s, key);
    assert KeyOk(world, st.tables, key, h) && ServerOk(world, st.history, st.log, st.servers[s]);
    StoredIsLast(world, st.tables, key, h);
    if w.Some? {
      EntryRightIff(world, st, s, key, h[w.value].to, h[|h| - 1].to);
    } else {
      assert IsRight(st, s, key);
    }
  }

  lemma EntryRightIff(world: set<Endpoint>, st: State, s: nat, key: Key, entry: Endpoint, stored: Endpoint)
    requires OnePodPerAddress(world) && s in st.servers && st.servers[s].local <= world && entry in world && stored in world
    requires RouteIn(st.servers[s].view, key) == Some(entry) && Stored(st.tables, key) == Found(Some(stored))
    ensures var local := st.servers[s].local;
            IsRight(st, s, key) <==> LocalPart(local, Some(entry)) == LocalPart(local, Some(stored))
  {
    var local := st.servers[s].local;
    if LocalPart(local, Some(entry)) != LocalPart(local, Some(stored)) {
      var e := if entry in local then entry else stored;
      assert e in local && !(ServerAccepts(st, s, key, e, None) <==> Stored(st.tables, key) == Found(Some(e)));
    }
  }

  /** A server that joins knows no route, has nothing to read, and hears what is published from then on. */
  lemma JoinerHearsOnlyWhatFollows(world: set<Endpoint>, st: State, s: nat, local: set<Endpoint>)
    requires Enabled(world, st, Join(s, local))
    ensures var st' := Next(world, st, Join(s, local));
            && st'.servers == st.servers[s := st'.servers[s]] && st'.servers[s].local == local
            && st'.servers[s].view == map[] && !Enabled(world, st', Deliver(s)) && !Enabled(world, st', Lose(s))
  {
  }

  // ---------- the steps and the server's own calls ----------

  /** The setter's own migration, nothing coming in between. */
  ghost function OwnApplied(world: set<Endpoint>, st: State, key: Key, index: nat, n: nat): State
    decreases n
  {
    if n == 0 || !Enabled(world, st, ApplyOwn(key, index)) then st
    else OwnApplied(world, Next(world, st, ApplyOwn(key, index)), key, index, n - 1)
  }

  /** When nothing comes in between, a set, the parts of the setter's own migration and the publication do
      together what `SetCustomRoute` of a server does, and it reports success exactly when they are due. */
  lemma ServerCallIsItsSteps(world: set<Endpoint>, st: State, s: nat, call: Call)
    requires GoodWorld(world) && Sound(world, st) && Enabled(world, st, Set(call, Some(s)))
    ensures var i, st1 := |History(st.history, call.key)|, Next(world, st, Set(call, Some(s)));
            if call.presented.Some? && ReportedOld(st.tables, call).None? then
              var st2 := OwnApplied(world, st1, call.key, i, 3);
              && Enabled(world, st2, Publish(call.key, i))
              && var st3 := Next(world, st2, Publish(call.key, i));
              && st3.tables == AfterCall(st.tables, call)
              && st3.servers == st.servers[s := st.servers[s].(view :=
                   Migrated(st.servers[s].local, st.servers[s].view, Migration(call.key, call.presented, Some(call.endpoint))))]
              && st3.log == st.log + [Message(call.key, i, MigrationText(call.key, call.presented.value, call.endpoint))]
            else
              st1.tables == AfterCall(st.tables, call) && st1.servers == st.servers && st1.log == st.log
  {
    var i, st1 := |History(st.history, call.key)|, Next(world, st, Set(call, Some(s)));
    assert KeyOk(world, st.tables, call.key, History(st.history, call.key));
    ParsesWhatIsStored(world, st.tables, call.key, History(st.history, call.key));
    SuccessIffWritten(st.tables, call);
    if call.presented.Some? && ReportedOld(st.tables, call).None? {
      OwnPartsAreTheWhole(world, st1, call.key, i, 3);
      PartsAreTheWhole(st.servers[s].local, st.servers[s].view, Migration(call.key, call.presented, Some(call.endpoint)));
    }
  }

  function Rank(p: Progress): nat {
    match p case NotStarted => 3 case Cleared => 2 case Adding => 1 case Done => 0
  }

  lemma {:induction false} OwnPartsAreTheWhole(world: set<Endpoint>, st: State, key: Key, index: nat, n: nat)
    requires index < |History(st.history, key)|
    requires var entry := History(st.history, key)[index];
             entry.from.Some? && entry.setter.Some? && entry.setter.value in st.servers && !entry.sent && Rank(entry.progress) <= n
    ensures var entry := History(st.history, key)[index];
            var server := st.servers[entry.setter.value];
            OwnApplied(world, st, key, index, n) ==
              st.(history := Put(st.history, key, index, entry.(progress := Done)),
                  servers := st.servers[entry.setter.value :=
                    server.(view := Completed(server.local, server.view, MigrationOf(key, entry), entry.progress))])
    decreases n
  {
    var entry := History(st.history, key)[index];
    if entry.progress.Done? {
      assert History(st.history, key)[index := entry] == History(st.history, key);
      assert st.history[key := History(st.history, key)] == st.history;
    } else {
      var next := Next(world, st, ApplyOwn(key, index));
      OwnPartsAreTheWhole(world, next, key, index, n - 1);
      var entry' := History(next.history, key)[index];
      assert History(next.history, key)[index := entry'.(progress := Done)] == History(st.history, key)[index := entry.(progress := Done)];
      assert Put(next.history, key, index, entry'.(progress := Done)) == Put(st.history, key, index, entry.(progress := Done));
    }
  }

  lemma ParsesWhatIsStored(world: set<Endpoint>, tables: Tables, key: Key, h: seq<Entry>)
    requires GoodWorld(world) && KeyOk(world, tables, key, h)
    ensures if h == [] then key !in tables.routes && key !in tables.deadlines
            else key in tables.routes && FromText(tables.routes[key]) == Some(h[|h| - 1].to)
  {
    if h != [] {
      TextRoundTrip(h[|h| - 1].to);
    }
  }

  /** A request whose answer is written at once leaves the table as one uninterrupted request does. */
  lemma RequestIsItsSteps(world: set<Endpoint>, st: State, s: nat, key: Key, endpoint: Option<Endpoint>, last: Option<Endpoint>)
    requires s in st.servers
    ensures var st1 := Next(world, st, Request(s, key, endpoint, last));
            var v := ViewAfterRequest(st.servers[s].view, Stored(st.tables, key), key, endpoint, last);
            if |st1.servers[s].answers| == |st.servers[s].answers| then st1.servers[s].view == v
            else
              && Enabled(world, st1, Write(s, |st.servers[s].answers|))
              && Next(world, st1, Write(s, |st.servers[s].answers|)) == st.(servers := st.servers[s := st.servers[s].(view := v)])
  {
    var server := Requested(st.servers[s], st.tables, History(st.history, key), key, endpoint, last);
    var n := |st.servers[s].answers|;
    if |server.answers| != n {
      assert server.answers[..n] + server.answers[n + 1..] == st.servers[s].answers;
    }
  }
}
