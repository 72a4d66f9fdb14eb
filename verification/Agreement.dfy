/**
 When servers come to agree with the store: every write over an earlier route of a key presents that route's
 endpoint, the messages of the key are published in the order of its compare-and-sets, the server loses none
 of them, and no answer of the store is written into its table after a later message of the key was read.
 Everything is said of one server and one key, whatever happens to the others. Permanent routes are presented
 of themselves; a route whose deadline has passed may be written over by anyone.
 */
module Agreement {
  import opened Base
  import opened Endpoints
  import opened RouteStore
  import opened RoutingTables
  import opened Servers
  import opened Protocol

  /** How far along a key's history the messages read so far have brought a reader. */
  function Cursor(read: seq<Message>, key: Key): nat {
    if read == [] then 0
    else
      var m := read[|read| - 1];
      if m.key == key then m.index else Cursor(read[..|read| - 1], key)
  }

  /** How far along a key's history the server's queue stands. */
  function Reached(server: Server, log: seq<Message>, key: Key): nat {
    Cursor(if server.position <= |log| then log[..server.position] else log, key)
  }

  /** A write over an earlier route presents its endpoint. */
  ghost predicate Presents(st: State, step: Step, key: Key) {
    step.Set? && step.call.key == key && CallWrites(st.tables, step.call) && History(st.history, key) != [] ==>
      step.call.presented == Some(History(st.history, key)[|History(st.history, key)| - 1].to)
  }

  /** No message is published out of order or lost, and no answer is written late. */
  ghost predicate InTime(world: set<Endpoint>, st: State, step: Step, s: nat, key: Key)
    requires Enabled(world, st, step)
  {
    match step
    case Publish(k, index) => k == key ==> forall i :: 0 <= i < index ==> History(st.history, key)[i].sent
    case Lose(s') => s' == s ==> st.log[st.servers[s].position].key != key
    case Write(s', i) =>
      s' == s && st.servers[s].answers[i].key == key ==> Reached(st.servers[s], st.log, key) <= st.servers[s].answers[i].index
    case _ => true
  }

  ghost predicate IsOrderly(world: set<Endpoint>, st: State, step: Step, s: nat, key: Key)
    requires Enabled(world, st, step)
  {
    Presents(st, step, key) && InTime(world, st, step, s, key)
  }

  ghost predicate IsOrderlyRun(world: set<Endpoint>, steps: seq<Step>, s: nat, key: Key)
    requires IsRun(world, steps)
  {
    steps == [] ||
    (IsOrderlyRun(world, steps[..|steps| - 1], s, key) &&
     IsOrderly(world, After(world, steps[..|steps| - 1]), steps[|steps| - 1], s, key))
  }

  // ---------- the invariant ----------

  ghost predicate SentInOrder(h: seq<Entry>) {
    && (forall i, j :: 0 <= i < j < |h| && h[j].sent ==> h[i].sent)
    && (forall i :: 0 <= i < |h| && h[i].from.None? ==> h[i].sent)
  }

  /** Each entry replaced the one before it. */
  ghost predicate Chained(h: seq<Entry>) {
    forall i :: 0 < i < |h| ==> h[i].from == Some(h[i - 1].to)
  }

  ghost predicate SentUpTo(h: seq<Entry>, last: nat) {
    forall i :: 0 <= i < |h| && h[i].sent ==> i <= last
  }

  /** The message at `j`, if it is the key's, takes its history one step further, or repeats a step. */
  ghost predicate MessageAt(h: seq<Entry>, log: seq<Message>, key: Key, j: nat)
    requires j < |log|
  {
    log[j].key == key ==>
      && log[j].index < |h| && h[log[j].index].sent
      && Cursor(log[..j], key) <= log[j].index <= Cursor(log[..j], key) + 1
  }

  ghost predicate MessagesOk(h: seq<Entry>, log: seq<Message>, key: Key) {
    SentInOrder(h) && SentUpTo(h, Cursor(log, key)) && forall j :: 0 <= j < |log| ==> MessageAt(h, log, key, j)
  }

  /** An entry is a value the store had at `from` or later, or else neither it nor the value at `from`
      is one of the server's own endpoints. */
  ghost predicate Backed(local: set<Endpoint>, h: seq<Entry>, from: nat, e: Endpoint) {
    exists q :: from <= q < |h| && BackedAt(local, h, from, e, q)
  }

  ghost predicate BackedAt(local: set<Endpoint>, h: seq<Entry>, from: nat, e: Endpoint, q: nat)
    requires q < |h|
  {
    h[q].to == e || (q == from && e !in local && h[q].to !in local)
  }

  ghost predicate EntryOk(server: Server, h: seq<Entry>, log: seq<Message>, key: Key) {
    key in server.view ==> Backed(server.local, h, Reached(server, log, key), server.view[key])
  }

  ghost predicate Ordered(st: State, s: nat, key: Key) {
    && Chained(History(st.history, key)) && MessagesOk(History(st.history, key), st.log, key)
    && (s in st.servers ==> EntryOk(st.servers[s], History(st.history, key), st.log, key))
  }

  lemma {:induction false} CursorIsRead(read: seq<Message>, key: Key)
    ensures Cursor(read, key) == 0 || exists j :: 0 <= j < |read| && read[j].key == key && read[j].index == Cursor(read, key)
  {
    if read == [] {
    } else if read[|read| - 1].key != key {
      var init := read[..|read| - 1];
      CursorIsRead(init, key);
      if Cursor(init, key) != 0 {
        var j :| 0 <= j < |init| && init[j].key == key && init[j].index == Cursor(init, key);
        assert read[j] == init[j];
      }
    }
  }

  lemma CursorWasSent(h: seq<Entry>, log: seq<Message>, read: seq<Message>, key: Key)
    requires MessagesOk(h, log, key) && read <= log
    ensures Cursor(read, key) == 0 || (Cursor(read, key) < |h| && h[Cursor(read, key)].sent)
  {
    CursorIsRead(read, key);
    if Cursor(read, key) != 0 {
      var j :| 0 <= j < |read| && read[j].key == key && read[j].index == Cursor(read, key);
      assert MessageAt(h, log, key, j);
    }
  }

  // ---------- every orderly step keeps the invariant ----------

  /** Growing histories and logs leave an entry as well backed as it was. */
  lemma GrowthKeepsEntryOk(server: Server, h: seq<Entry>, h': seq<Entry>, log: seq<Message>, log': seq<Message>, key: Key)
    requires EntryOk(server, h, log, key) && ExtendsAt(h, h') && log <= log' && server.position <= |log|
    ensures EntryOk(server, h', log', key)
  {
    assert log'[..server.position] == log[..server.position];
    if key in server.view {
      var from := Reached(server, log, key);
      var q :| from <= q < |h| && BackedAt(server.local, h, from, server.view[key], q);
      assert BackedAt(server.local, h', from, server.view[key], q);
    }
  }

  /** A part of a migration that writes, writes the value at its place in the history. */
  lemma AdvancedKeepsEntryOk(server: Server, v: View, m: Migration, p: Progress, h: seq<Entry>, log: seq<Message>, key: Key, index: nat)
    requires EntryOk(server, h, log, key) && v == Advanced(server.local, server.view, m, p).0
    requires m.key == key ==> index < |h| && m.to == Some(h[index].to) && (p.Adding? ==> Reached(server, log, key) <= index)
    ensures EntryOk(server.(view := v), h, log, key)
  {
    if key in v {
      var from := Reached(server, log, key);
      if m.key == key && p.Adding? {
        assert BackedAt(server.local, h, from, v[key], index);
      } else {
        assert v[key] == server.view[key];
      }
    }
  }

  lemma ChainedAppend(h: seq<Entry>, entry: Entry)
    requires Chained(h) && (h != [] ==> entry.from == Some(h[|h| - 1].to))
    ensures Chained(h + [entry])
  {
  }

  lemma ChainedMark(h: seq<Entry>, index: nat, entry: Entry)
    requires Chained(h) && index < |h| && SameMigration(h[index], entry)
    ensures Chained(h[index := entry])
  {
  }

  lemma SetKeepsMessagesOk(h: seq<Entry>, entry: Entry, log: seq<Message>, key: Key)
    requires MessagesOk(h, log, key) && (entry.sent ==> h == []) && (entry.from.None? ==> entry.sent)
    ensures MessagesOk(h + [entry], log, key) && ExtendsAt(h, h + [entry])
  {
    forall j | 0 <= j < |log| ensures MessageAt(h + [entry], log, key, j) {
      assert MessageAt(h, log, key, j);
    }
  }

  lemma AppendKeepsOrdered(world: set<Endpoint>, st: State, st': State, entry: Entry, s: nat, key: Key)
    requires Sound(world, st) && Ordered(st, s, key) && st'.servers == st.servers && st'.log == st.log
    requires var h := History(st.history, key);
             && History(st'.history, key) == h + [entry]
             && (h != [] ==> entry.from == Some(h[|h| - 1].to)) && entry.sent == entry.from.None?
    ensures Ordered(st', s, key)
  {
    ChainedAppend(History(st.history, key), entry);
    SetKeepsMessagesOk(History(st.history, key), entry, st.log, key);
    GrowthKeepsOrdered(world, st, st', s, key);
  }

  lemma SetKeepsOrdered(world: set<Endpoint>, st: State, step: Step, s: nat, key: Key)
    requires GoodWorld(world) && Sound(world, st) && Ordered(st, s, key) && step.Set? && Enabled(world, st, step)
    requires Presents(st, step, key)
    ensures Ordered(Next(world, st, step), s, key)
  {
    var st' := Next(world, st, step);
    if CallWrites(st.tables, step.call) && step.call.key == key {
      AppendKeepsOrdered(world, st, st', st'.history[key][|History(st.history, key)|], s, key);
    }
  }

  /** Marks that leave `sent` alone do not matter to the messages. */
  lemma MarkKeepsMessagesOk(h: seq<Entry>, index: nat, entry: Entry, log: seq<Message>, key: Key)
    requires MessagesOk(h, log, key) && index < |h| && SameMigration(h[index], entry) && entry.sent == h[index].sent
    ensures MessagesOk(h[index := entry], log, key) && ExtendsAt(h, h[index := entry])
  {
    var h' := h[index := entry];
    forall j | 0 <= j < |log| ensures MessageAt(h', log, key, j) {
      assert MessageAt(h, log, key, j);
    }
  }

  /** A setter's own migration comes ahead of every message it has yet to read. */
  lemma OwnKeepsEntryOk(world: set<Endpoint>, st: State, s: nat, k: Key, index: nat, key: Key)
    requires Sound(world, st) && Ordered(st, s, key) && Enabled(world, st, ApplyOwn(k, index))
    requires History(st.history, k)[index].setter == Some(s)
    ensures EntryOk(Next(world, st, ApplyOwn(k, index)).servers[s], History(st.history, key), st.log, key)
  {
    var server, h, entry := st.servers[s], History(st.history, key), History(st.history, k)[index];
    assert ServerOk(world, st.history, st.log, server);
    CursorWasSent(h, st.log, st.log[..server.position], key);
    var v := Advanced(server.local, server.view, MigrationOf(k, entry), entry.progress).0;
    AdvancedKeepsEntryOk(server, v, MigrationOf(k, entry), entry.progress, h, st.log, key, index);
  }

  lemma ApplyOwnKeepsOrdered(world: set<Endpoint>, st: State, step: Step, s: nat, key: Key)
    requires GoodWorld(world) && Sound(world, st) && Ordered(st, s, key) && step.ApplyOwn? && Enabled(world, st, step)
    ensures Ordered(Next(world, st, step), s, key)
  {
    var st' := Next(world, st, step);
    var entry := History(st.history, step.key)[step.index];
    var setter := entry.setter.value;
    var marked := st.(history := st'.history);
    if step.key == key {
      ChainedMark(History(st.history, key), step.index, History(st'.history, key)[step.index]);
      MarkKeepsMessagesOk(History(st.history, key), step.index, History(st'.history, key)[step.index], st.log, key);
    }
    GrowthKeepsOrdered(world, st, marked, s, key);
    if setter == s {
      OwnKeepsEntryOk(world, st, s, step.key, step.index, key);
      assert ServerOk(world, st.history, st.log, st.servers[s]);
      GrowthKeepsEntryOk(st'.servers[s], History(st.history, key), History(st'.history, key), st.log, st.log, key);
    }
    OneServerMoves(marked, setter, st'.servers[setter], s, key);
  }

  lemma PublishKeepsMessagesOk(h: seq<Entry>, log: seq<Message>, m: Message, key: Key, index: nat)
    requires MessagesOk(h, log, key) && index < |h| && !h[index].sent
    requires m.key == key && m.index == index && forall i :: 0 <= i < index ==> h[i].sent
    ensures var h' := h[index := h[index].(sent := true)];
            MessagesOk(h', log + [m], key) && ExtendsAt(h, h')
  {
    var h', log' := h[index := h[index].(sent := true)], log + [m];
    CursorWasSent(h, log, log, key);
    assert index > 0 ==> h[index - 1].sent;
    assert log'[..|log|] == log;
    forall j | 0 <= j < |log'| ensures MessageAt(h', log', key, j) {
      if j < |log| {
        assert log'[..j] == log[..j] && MessageAt(h, log, key, j);
      }
    }
  }

  lemma OtherMessageKeepsMessagesOk(h: seq<Entry>, log: seq<Message>, m: Message, key: Key)
    requires MessagesOk(h, log, key) && m.key != key
    ensures MessagesOk(h, log + [m], key)
  {
    var log' := log + [m];
    assert log'[..|log|] == log;
    forall j | 0 <= j < |log'| ensures MessageAt(h, log', key, j) {
      if j < |log| {
        assert log'[..j] == log[..j] && MessageAt(h, log, key, j);
      }
    }
  }

  lemma PublishKeepsOrdered(world: set<Endpoint>, st: State, step: Step, s: nat, key: Key)
    requires GoodWorld(world) && Sound(world, st) && Ordered(st, s, key)
    requires step.Publish? && Enabled(world, st, step) && IsOrderly(world, st, step, s, key)
    ensures Ordered(Next(world, st, step), s, key)
  {
    var st' := Next(world, st, step);
    var h, m := History(st.history, key), st'.log[|st.log|];
    if step.key == key {
      ChainedMark(h, step.index, History(st'.history, key)[step.index]);
      PublishKeepsMessagesOk(h, st.log, m, key, step.index);
    } else {
      OtherMessageKeepsMessagesOk(h, st.log, m, key);
    }
    GrowthKeepsOrdered(world, st, st', s, key);
  }

  /** The heart of the protocol: when the last part of the key's next message is done, the entry is backed
      at the place the queue has then reached, whatever came in between the parts. */
  lemma CompletingKeepsBacked(world: set<Endpoint>, local: set<Endpoint>, v: View, key: Key, h: seq<Entry>, i: nat, from: nat, p: Progress)
    requires GoodWorld(world) && i < |h| && from <= i <= from + 1
    requires forall j :: 0 <= j < |h| ==> h[j].to in world && (h[j].from.Some? ==> h[j].from.value in world)
    requires Chained(h)
    requires key in v ==> v[key] in world && Backed(local, h, from, v[key])
    requires h[i].from.Some? && !p.Done? && Advanced(local, v, MigrationOf(key, h[i]), p).1.Done?
    ensures var v' := Advanced(local, v, MigrationOf(key, h[i]), p).0;
            key in v' ==> Backed(local, h, i, v'[key])
  {
    var v' := Advanced(local, v, MigrationOf(key, h[i]), p).0;
    if key in v' {
      if p.Adding? {
        assert BackedAt(local, h, i, v'[key], i);
      } else {
        assert key in v && v'[key] == v[key];
        var q :| from <= q < |h| && BackedAt(local, h, from, v[key], q);
        if p.Cleared? {
          assert BackedAt(local, h, i, v'[key], i);
        } else if q < i {
          assert q == i - 1 && h[i].from == Some(h[q].to);
          assert BackedAt(local, h, i, v'[key], i);
        } else {
          assert BackedAt(local, h, i, v'[key], q);
        }
      }
    }
  }

  lemma ReachedAfter(server: Server, log: seq<Message>, key: Key)
    requires server.position < |log|
    ensures var m := log[server.position];
            Reached(server.(position := server.position + 1), log, key) == if m.key == key then m.index else Reached(server, log, key)
  {
    assert log[..server.position + 1][..server.position] == log[..server.position];
  }

  lemma CompletedMessageKeepsEntryOk(world: set<Endpoint>, tables: Tables, server: Server, moved: Server, h: seq<Entry>,
                                     log: seq<Message>, key: Key)
    requires GoodWorld(world) && KeyOk(world, tables, key, h) && EntryOk(server, h, log, key) && RouteOk(server.view, key, h)
    requires server.position < |log| && !server.progress.Done? && Chained(h)
    requires var m := log[server.position];
             && m.key == key && m.index < |h| && h[m.index].from.Some?
             && Reached(server, log, key) <= m.index <= Reached(server, log, key) + 1
             && Advanced(server.local, server.view, MigrationOf(key, h[m.index]), server.progress) == (moved.view, Done)
    requires moved == server.(view := moved.view, position := server.position + 1, progress := NotStarted)
    ensures EntryOk(moved, h, log, key)
  {
    ReachedAfter(server, log, key);
    assert Reached(moved, log, key) == log[server.position].index;
    CompletingKeepsBacked(world, server.local, server.view, key, h, log[server.position].index, Reached(server, log, key), server.progress);
  }

  lemma OtherMessageKeepsEntryOk(server: Server, moved: Server, h: seq<Entry>, log: seq<Message>, key: Key)
    requires EntryOk(server, h, log, key) && server.position < |log| && log[server.position].key != key
    requires moved.local == server.local && RouteIn(moved.view, key) == RouteIn(server.view, key)
    requires server.position <= moved.position <= server.position + 1
    ensures EntryOk(moved, h, log, key)
  {
    ReachedAfter(server, log, key);
    assert key in moved.view ==> moved.view[key] == server.view[key];
  }

  lemma OwnMessageKeepsEntryOk(world: set<Endpoint>, tables: Tables, server: Server, h: seq<Entry>, log: seq<Message>, key: Key)
    requires GoodWorld(world) && KeyOk(world, tables, key, h) && EntryOk(server, h, log, key) && RouteOk(server.view, key, h)
    requires server.position < |log| && log[server.position].key == key && !server.progress.Done? && Chained(h)
    requires MessageAt(h, log, key, server.position)
    requires var m := log[server.position]; h[m.index].from.Some? && ParseMigration(m.payload) == Some(MigrationOf(key, h[m.index]))
    ensures EntryOk(Delivered(server, log), h, log, key)
  {
    var m, server' := log[server.position], Delivered(server, log);
    if server'.position == server.position {
      AdvancedKeepsEntryOk(server, server'.view, MigrationOf(key, h[m.index]), server.progress, h, log, key, m.index);
    } else {
      CompletedMessageKeepsEntryOk(world, tables, server, server', h, log, key);
    }
  }

  lemma DeliverKeepsEntryOk(world: set<Endpoint>, st: State, s: nat, key: Key)
    requires GoodWorld(world) && Sound(world, st) && Ordered(st, s, key) && s in st.servers && st.servers[s].position < |st.log|
    ensures EntryOk(Delivered(st.servers[s], st.log), History(st.history, key), st.log, key)
  {
    var server, h := st.servers[s], History(st.history, key);
    var m := st.log[server.position];
    DeliveredIsMigration(world, st, server);
    assert ServerOk(world, st.history, st.log, server);
    if m.key != key {
      OtherMessageKeepsEntryOk(server, Delivered(server, st.log), h, st.log, key);
    } else {
      assert KeyOk(world, st.tables, key, h) && RouteOk(server.view, key, h) && MessageAt(h, st.log, key, server.position);
      OwnMessageKeepsEntryOk(world, st.tables, server, h, st.log, key);
    }
  }

  lemma WriteKeepsEntryOk(world: set<Endpoint>, st: State, s: nat, i: nat, key: Key)
    requires Sound(world, st) && Ordered(st, s, key) && Enabled(world, st, Write(s, i)) && IsOrderly(world, st, Write(s, i), s, key)
    ensures EntryOk(Written(st.servers[s], i), History(st.history, key), st.log, key)
  {
    var server, h := st.servers[s], History(st.history, key);
    var a, server' := server.answers[i], Written(server, i);
    assert ServerOk(world, st.history, st.log, server) && AnswerOk(History(st.history, a.key), a);
    if a.key == key {
      assert BackedAt(server.local, h, Reached(server', st.log, key), server'.view[key], a.index);
    } else {
      assert RouteIn(server'.view, key) == RouteIn(server.view, key);
    }
  }

  lemma LoseKeepsEntryOk(world: set<Endpoint>, st: State, s: nat, key: Key)
    requires Ordered(st, s, key) && Enabled(world, st, Lose(s)) && IsOrderly(world, st, Lose(s), s, key)
    ensures EntryOk(Next(world, st, Lose(s)).servers[s], History(st.history, key), st.log, key)
  {
    var p := st.servers[s].position;
    assert st.log[..p + 1][..p] == st.log[..p];
  }

  lemma StepKeepsOrdered(world: set<Endpoint>, st: State, step: Step, s: nat, key: Key)
    requires GoodWorld(world) && Sound(world, st) && Ordered(st, s, key)
    requires Enabled(world, st, step) && IsOrderly(world, st, step, s, key)
    ensures Ordered(Next(world, st, step), s, key)
  {
    match step
    case Set(_, _) => SetKeepsOrdered(world, st, step, s, key);
    case ApplyOwn(_, _) => ApplyOwnKeepsOrdered(world, st, step, s, key);
    case Publish(_, _) => PublishKeepsOrdered(world, st, step, s, key);
    case Deliver(s') =>
      if s' == s {
        DeliverKeepsEntryOk(world, st, s, key);
      }
      OneServerMoves(st, s', Delivered(st.servers[s'], st.log), s, key);
    case Lose(s') =>
      if s' == s {
        LoseKeepsEntryOk(world, st, s, key);
      }
      OneServerMoves(st, s', Next(world, st, step).servers[s'], s, key);
    case Write(s', i) =>
      if s' == s {
        WriteKeepsEntryOk(world, st, s, i, key);
      }
      OneServerMoves(st, s', Written(st.servers[s'], i), s, key);
    case Join(s', _) => OneServerMoves(st, s', Next(world, st, step).servers[s'], s, key);
    case Request(s', _, _, _) => OneServerMoves(st, s', Next(world, st, step).servers[s'], s, key);
  }

  lemma OneServerMoves(st: State, s': nat, moved: Server, s: nat, key: Key)
    requires Ordered(st, s, key) && (s' == s ==> EntryOk(moved, History(st.history, key), st.log, key))
    ensures Ordered(st.(servers := st.servers[s' := moved]), s, key)
  {
  }

  /** The histories and the log grew, and the server did nothing. */
  lemma GrowthKeepsOrdered(world: set<Endpoint>, st: State, st': State, s: nat, key: Key)
    requires Sound(world, st) && Ordered(st, s, key) && st'.servers == st.servers && st.log <= st'.log
    requires ExtendsAt(History(st.history, key), History(st'.history, key)) && Chained(History(st'.history, key))
    requires MessagesOk(History(st'.history, key), st'.log, key)
    ensures Ordered(st', s, key)
  {
    if s in st.servers {
      assert ServerOk(world, st.history, st.log, st.servers[s]);
      GrowthKeepsEntryOk(st.servers[s], History(st.history, key), History(st'.history, key), st.log, st'.log, key);
    }
  }

  lemma {:induction false} RunKeepsOrdered(world: set<Endpoint>, steps: seq<Step>, s: nat, key: Key)
    requires GoodWorld(world) && IsRun(world, steps) && IsOrderlyRun(world, steps, s, key)
    ensures Ordered(After(world, steps), s, key)
  {
    if steps != [] {
      var init := steps[..|steps| - 1];
      RunKeepsOrdered(world, init, s, key);
      RunKeepsSound(world, init);
      StepKeepsOrdered(world, After(world, init), steps[|steps| - 1], s, key);
    }
  }

  // ---------- permanent routes ----------

  /** The key is only ever given permanent routes. */
  ghost predicate IsPermanent(steps: seq<Step>, key: Key) {
    forall i :: 0 <= i < |steps| && steps[i].Set? && steps[i].call.key == key ==> steps[i].call.timeout == 0
  }

  lemma {:induction false} PermanentDeadlines(world: set<Endpoint>, steps: seq<Step>, key: Key)
    requires IsRun(world, steps) && IsPermanent(steps, key)
    ensures var t := After(world, steps).tables; key in t.deadlines ==> t.deadlines[key] == -1.0
  {
    if steps != [] {
      PermanentDeadlines(world, steps[..|steps| - 1], key);
    }
  }

  lemma PermanentRouteIsPresented(world: set<Endpoint>, st: State, step: Step, key: Key)
    requires GoodWorld(world) && Sound(world, st) && Enabled(world, st, step)
    requires key in st.tables.deadlines ==> st.tables.deadlines[key] == -1.0
    ensures Presents(st, step, key)
  {
    var h := History(st.history, key);
    assert KeyOk(world, st.tables, key, h);
    if step.Set? && step.call.key == key && CallWrites(st.tables, step.call) && h != [] {
      PresentedTextNamesEndpoint(step.call.presented, h[|h| - 1].to);
    }
  }

  ghost predicate IsTimelyRun(world: set<Endpoint>, steps: seq<Step>, s: nat, key: Key)
    requires IsRun(world, steps)
  {
    steps == [] ||
    (IsTimelyRun(world, steps[..|steps| - 1], s, key) &&
     InTime(world, After(world, steps[..|steps| - 1]), steps[|steps| - 1], s, key))
  }

  /** For permanent routes only messages and answers decide whether a run is orderly. */
  lemma {:induction false} PermanentRunIsOrderlyIff(world: set<Endpoint>, steps: seq<Step>, s: nat, key: Key)
    requires GoodWorld(world) && IsRun(world, steps) && IsPermanent(steps, key)
    ensures IsOrderlyRun(world, steps, s, key) <==> IsTimelyRun(world, steps, s, key)
  {
    if steps != [] {
      var init := steps[..|steps| - 1];
      PermanentRunIsOrderlyIff(world, init, s, key);
      PermanentDeadlines(world, init, key);
      RunKeepsSound(world, init);
      PermanentRouteIsPresented(world, After(world, init), steps[|steps| - 1], key);
    }
  }

  // ---------- agreement ----------

  /** Nothing about the key is still to be published, or waits in the server's queue. An answer that is yet to
      be written does no harm in an orderly run: it will not be written late. */
  ghost predicate Settled(st: State, s: nat, key: Key)
    requires s in st.servers
  {
    && (forall i :: 0 <= i < |History(st.history, key)| ==> History(st.history, key)[i].sent)
    && (forall j :: st.servers[s].position <= j < |st.log| ==> st.log[j].key != key)
  }

  lemma {:induction false} CursorSkipsOthers(log: seq<Message>, p: nat, key: Key)
    requires p <= |log| && forall j :: p <= j < |log| ==> log[j].key != key
    ensures Cursor(log, key) == Cursor(log[..p], key)
  {
    if p == |log| {
      assert log[..p] == log;
    } else {
      var init := log[..|log| - 1];
      CursorSkipsOthers(init, p, key);
      assert init[..p] == log[..p];
    }
  }

  /** At any moment of an orderly run, a server's entry is the value at the place its queue has reached, or
      a later one, or else neither the entry nor the value at that place is one of its own endpoints. */
  lemma EntriesFollowTheStore(world: set<Endpoint>, steps: seq<Step>, s: nat, key: Key)
    requires GoodWorld(world) && IsRun(world, steps) && IsOrderlyRun(world, steps, s, key)
    requires s in After(world, steps).servers && key in After(world, steps).servers[s].view
    ensures var st := After(world, steps);
            var server, h := st.servers[s], History(st.history, key);
            var reached := Reached(server, st.log, key);
            exists q :: reached <= q < |h| &&
              (h[q].to == server.view[key] || (q == reached && server.view[key] !in server.local && h[q].to !in server.local))
  {
    RunKeepsOrdered(world, steps, s, key);
    var st := After(world, steps);
    var server, h := st.servers[s], History(st.history, key);
    var q :| Reached(server, st.log, key) <= q < |h| && BackedAt(server.local, h, Reached(server, st.log, key), server.view[key], q);
  }

  /** At any moment of an orderly run, a server accepts a request for one of its own endpoints only if the
      store named that endpoint no earlier than where the server's queue stands. */
  lemma AcceptedWasStored(world: set<Endpoint>, steps: seq<Step>, s: nat, key: Key, e: Endpoint, last: Option<Endpoint>)
    requires GoodWorld(world) && IsRun(world, steps) && IsOrderlyRun(world, steps, s, key)
    requires var st := After(world, steps);
             s in st.servers && e in st.servers[s].local && ServerAccepts(st, s, key, e, last)
    ensures var st := After(world, steps);
            var h := History(st.history, key);
            exists q :: Reached(st.servers[s], st.log, key) <= q < |h| && h[q].to == e
  {
    RunKeepsSound(world, steps);
    RunKeepsOrdered(world, steps, s, key);
    AcceptedIsBacked(world, After(world, steps), s, key, e, last);
  }

  lemma AcceptedIsBacked(world: set<Endpoint>, st: State, s: nat, key: Key, e: Endpoint, last: Option<Endpoint>)
    requires GoodWorld(world) && Sound(world, st) && Ordered(st, s, key)
    requires s in st.servers && e in st.servers[s].local && ServerAccepts(st, s, key, e, last)
    ensures var h := History(st.history, key);
            exists q :: Reached(st.servers[s], st.log, key) <= q < |h| && h[q].to == e
  {
    var server := st.servers[s];
    var h, read := History(st.history, key), st.log[..server.position];
    assert KeyOk(world, st.tables, key, h) && ServerOk(world, st.history, st.log, server);
    StoredIsLast(world, st.tables, key, h);
    CursorWasSent(h, st.log, read, key);
    if AsksStore(server.view, key, Some(e), last) {
      assert h[|h| - 1].to == e;
    } else {
      var q :| Cursor(read, key) <= q < |h| && BackedAt(server.local, h, Cursor(read, key), server.view[key], q);
      assert RouteOk(server.view, key, h) && server.view[key] in world;
      assert h[q].to == e;
    }
  }

  lemma SettledReachedEnd(h: seq<Entry>, log: seq<Message>, server: Server, key: Key)
    requires MessagesOk(h, log, key) && h != [] && server.position <= |log|
    requires h[|h| - 1].sent && forall j :: server.position <= j < |log| ==> log[j].key != key
    ensures |h| - 1 <= Reached(server, log, key)
  {
    CursorSkipsOthers(log, server.position, key);
  }

  lemma BackedAtEndAgrees(world: set<Endpoint>, tables: Tables, server: Server, h: seq<Entry>, log: seq<Message>, key: Key)
    requires GoodWorld(world) && KeyOk(world, tables, key, h) && server.local <= world && RouteOk(server.view, key, h)
    requires EntryOk(server, h, log, key) && (h != [] ==> |h| - 1 <= Reached(server, log, key))
    ensures AgreesWithStore(world, server.local, server.view, Stored(tables, key), key)
  {
    StoredIsLast(world, tables, key, h);
  }

  /** Once a key has settled for a server, its entry and the stored endpoint look the same to it. */
  lemma SettledAgrees(world: set<Endpoint>, steps: seq<Step>, s: nat, key: Key)
    requires GoodWorld(world) && IsRun(world, steps) && IsOrderlyRun(world, steps, s, key)
    requires s in After(world, steps).servers && Settled(After(world, steps), s, key)
    ensures var st := After(world, steps);
            AgreesWithStore(world, st.servers[s].local, st.servers[s].view, Stored(st.tables, key), key)
  {
    RunKeepsSound(world, steps);
    RunKeepsOrdered(world, steps, s, key);
    SettledStateAgrees(world, After(world, steps), s, key);
  }

  lemma SettledStateAgrees(world: set<Endpoint>, st: State, s: nat, key: Key)
    requires GoodWorld(world) && Sound(world, st) && Ordered(st, s, key) && s in st.servers && Settled(st, s, key)
    ensures AgreesWithStore(world, st.servers[s].local, st.servers[s].view, Stored(st.tables, key), key)
  {
    var server, h := st.servers[s], History(st.history, key);
    assert KeyOk(world, st.tables, key, h) && ServerOk(world, st.history, st.log, server) && RouteOk(server.view, key, h);
    if h != [] {
      SettledReachedEnd(h, st.log, server, key);
    }
    BackedAtEndAgrees(world, st.tables, server, h, st.log, key);
  }

  /** Once a key has settled for a server, the server accepts one of its own endpoints exactly when the
      store names it, whatever the client says was rejected before. */
  lemma SettledAcceptsOwner(world: set<Endpoint>, steps: seq<Step>, s: nat, key: Key, e: Endpoint, last: Option<Endpoint>)
    requires GoodWorld(world) && IsRun(world, steps) && IsOrderlyRun(world, steps, s, key)
    requires var st := After(world, steps);
             s in st.servers && e in st.servers[s].local && Settled(st, s, key)
    ensures var st := After(world, steps);
            ServerAccepts(st, s, key, e, last) <==> Stored(st.tables, key) == Found(Some(e))
  {
    var st := After(world, steps);
    SettledAgrees(world, steps, s, key);
    AgreementAcceptsOwner(world, st.servers[s].local, st.servers[s].view, Stored(st.tables, key), key, e, last);
  }

  /** Across settled servers at most one endpoint is accepted for a key. */
  lemma AtMostOneEndpointAccepts(world: set<Endpoint>, steps: seq<Step>, key: Key,
                                 s: nat, e: Endpoint, last: Option<Endpoint>, s': nat, e': Endpoint, last': Option<Endpoint>)
    requires GoodWorld(world) && IsRun(world, steps) && IsOrderlyRun(world, steps, s, key) && IsOrderlyRun(world, steps, s', key)
    requires var st := After(world, steps);
             && s in st.servers && e in st.servers[s].local && Settled(st, s, key) && ServerAccepts(st, s, key, e, last)
             && s' in st.servers && e' in st.servers[s'].local && Settled(st, s', key) && ServerAccepts(st, s', key, e', last')
    ensures e == e'
  {
    SettledAcceptsOwner(world, steps, s, key, e, last);
    SettledAcceptsOwner(world, steps, s', key, e', last');
  }
}
