/**
 The custom-route tables kept in Redis: the endpoint and the deadline of every key, changed by a
 compare-and-set script. Every call is one atomic step. Times are milliseconds since the epoch.
 */
module RouteStore {
  import opened Base
  import opened Endpoints

  /** The two hashes, with the selector folded into the key. */
  datatype Tables = Tables(routes: map<Key, string>, deadlines: map<Key, real>)

  const EMPTY_TABLES := Tables(map[], map[])

  /** The value a missing deadline is given by the script. */
  const DEFAULT_DEADLINE: real := 1.0

  datatype LuaValue = LuaNil | LuaFalse | LuaString(text: string)

  datatype Lookup = Found(endpoint: Option<Endpoint>) | NoCustomRoute

  function DeadlineOf(timeout: int, now: real): real {
    if timeout == 0 then -1.0 else now + timeout as real
  }

  function OldText(presented: Option<Endpoint>): string {
    match presented
    case None => ""
    case Some(e) => ToText(e)
  }

  /** A positive deadline that has passed; zero and negative deadlines never pass. */
  predicate Expired(t: Tables, key: Key, now: real) {
    var deadline := if key in t.deadlines then t.deadlines[key] else DEFAULT_DEADLINE;
    deadline > 0.0 && now >= deadline
  }

  /** The script writes over an expired key, and over a key whose value the caller presents. */
  predicate Writes(t: Tables, key: Key, presented: Option<Endpoint>, now: real) {
    Expired(t, key, now) || (key in t.routes && t.routes[key] == OldText(presented))
  }

  datatype Call = Call(key: Key, endpoint: Endpoint, presented: Option<Endpoint>, timeout: int, now: real)

  function CallWrites(t: Tables, c: Call): bool {
    Writes(t, c.key, c.presented, c.now)
  }

  function AfterCall(t: Tables, c: Call): Tables {
    if CallWrites(t, c) then
      Tables(t.routes[c.key := ToText(c.endpoint)], t.deadlines[c.key := DeadlineOf(c.timeout, c.now)])
    else t
  }

  /** What `SetCustomRoute` returns: nil means success to every caller. */
  function ReportedOld(t: Tables, c: Call): Option<Endpoint> {
    if !CallWrites(t, c) && c.key in t.routes then FromText(t.routes[c.key]) else None
  }

  /** `GetCustomRoute`: the stored text, whatever its deadline. */
  function Stored(t: Tables, key: Key): Lookup {
    if key !in t.routes || t.routes[key] == "" then NoCustomRoute
    else Found(FromText(t.routes[key]))
  }

  class RedisStore {
    var routes: map<Key, string>
    var deadlines: map<Key, real>

    function Contents(): Tables
      reads this
    {
      Tables(routes, deadlines)
    }

    constructor ()
      ensures Contents() == EMPTY_TABLES
    {
      routes, deadlines := map[], map[];
    }

    /** The script, followed by the decoding of its reply. A missing hash field reads as Lua's
        `false`, which is not `nil`. */
    method SetCustomRoute(key: Key, endpoint: Endpoint, presented: Option<Endpoint>, timeout: int, now: real)
      returns (realOld: Option<Endpoint>)
      modifies this
      ensures Contents() == AfterCall(old(Contents()), Call(key, endpoint, presented, timeout, now))
      ensures realOld == ReportedOld(old(Contents()), Call(key, endpoint, presented, timeout, now))
    {
      var deadline := if timeout == 0 then -1.0 else now + timeout as real;
      var existing := if key in routes then LuaString(routes[key]) else LuaFalse;
      var existingDeadline := if key in deadlines then deadlines[key] else DEFAULT_DEADLINE;
      if existing != LuaNil && existingDeadline > 0.0 && now >= existingDeadline {
        existing := LuaNil;
      }
      if existing != LuaNil && existing != LuaString(OldText(presented)) {
        realOld := if existing.LuaString? then FromText(existing.text) else None;
        return;
      }
      routes := routes[key := ToText(endpoint)];
      deadlines := deadlines[key := deadline];
      realOld := None;
    }

    method GetCustomRoute(key: Key) returns (r: Lookup)
      ensures r == Stored(Contents(), key)
    {
      if key !in routes {
        return NoCustomRoute;
      }
      if routes[key] == "" {
        return NoCustomRoute;
      }
      r := Found(FromText(routes[key]));
    }

    /** Only the endpoint is removed; the deadline stays behind. */
    method RemoveCustomRoute(key: Key)
      modifies this
      ensures Contents() == AfterRemove(old(Contents()), key)
    {
      routes := routes - {key};
    }
  }

  function AfterRemove(t: Tables, key: Key): Tables {
    t.(routes := t.routes - {key})
  }

  // ---------- when a report of success can be trusted ----------

  /** A call that is not going to write, and whose refusal nevertheless reads as success: the key has
      a deadline in force but no endpoint, or the endpoint held there does not parse. */
  predicate Misreported(t: Tables, c: Call) {
    && !Expired(t, c.key, c.now)
    && (c.key in t.routes ==> t.routes[c.key] != OldText(c.presented) && FromText(t.routes[c.key]).None?)
  }

  lemma SuccessIffWritten(t: Tables, c: Call)
    ensures (ReportedOld(t, c).None? <==> CallWrites(t, c)) <==> !Misreported(t, c)
  {
  }

  /** The tables that calls with plain endpoints build. */
  ghost predicate Healthy(t: Tables) {
    && t.routes.Keys == t.deadlines.Keys
    && forall k :: k in t.routes ==> FromText(t.routes[k]).Some?
  }

  function Run(t: Tables, calls: seq<Call>): Tables {
    if calls == [] then t
    else AfterCall(Run(t, calls[..|calls| - 1]), calls[|calls| - 1])
  }

  /** The calls on one key that wrote, in order. */
  function WritesTo(t: Tables, calls: seq<Call>, key: Key): seq<Call> {
    if calls == [] then []
    else
      var init, c := calls[..|calls| - 1], calls[|calls| - 1];
      if c.key == key && CallWrites(Run(t, init), c) then WritesTo(t, init, key) + [c]
      else WritesTo(t, init, key)
  }

  /** The endpoint texts of the calls parse and the clock has left its first millisecond. */
  ghost predicate Sane(calls: seq<Call>) {
    forall i :: 0 <= i < |calls| ==> Plain(calls[i].endpoint) && calls[i].now >= 1.0
  }

  /** The tables show the last of a key's writes, or nothing when there was none. */
  ghost predicate ShowsLast(t: Tables, w: seq<Call>, key: Key) {
    if w == [] then key !in t.routes
    else
      var last := w[|w| - 1];
      && key in t.routes && t.routes[key] == ToText(last.endpoint) && Plain(last.endpoint)
      && key in t.deadlines && t.deadlines[key] == DeadlineOf(last.timeout, last.now)
  }

  lemma CallKeepsHealthy(t: Tables, c: Call)
    requires Healthy(t) && Plain(c.endpoint)
    ensures Healthy(AfterCall(t, c))
  {
    TextRoundTrip(c.endpoint);
  }

  lemma CallShowsItself(t: Tables, w: seq<Call>, c: Call, key: Key)
    requires ShowsLast(t, w, key) && Plain(c.endpoint)
    ensures ShowsLast(AfterCall(t, c), if c.key == key && CallWrites(t, c) then w + [c] else w, key)
  {
  }

  lemma {:induction false} RunStaysHealthy(calls: seq<Call>)
    requires Sane(calls)
    ensures Healthy(Run(EMPTY_TABLES, calls))
  {
    if calls == [] {
    } else {
      RunStaysHealthy(calls[..|calls| - 1]);
      CallKeepsHealthy(Run(EMPTY_TABLES, calls[..|calls| - 1]), calls[|calls| - 1]);
    }
  }

  /** In every run the tables show the last write to each key. */
  lemma {:induction false} RunShowsLastWrite(calls: seq<Call>, key: Key)
    requires Sane(calls)
    ensures ShowsLast(Run(EMPTY_TABLES, calls), WritesTo(EMPTY_TABLES, calls, key), key)
  {
    if calls == [] {
    } else {
      var init, c := calls[..|calls| - 1], calls[|calls| - 1];
      RunShowsLastWrite(init, key);
      CallShowsItself(Run(EMPTY_TABLES, init), WritesTo(EMPTY_TABLES, init, key), c, key);
    }
  }

  /** In every such run a call reports success exactly when it wrote. */
  lemma ReportsAreTruthful(calls: seq<Call>, c: Call)
    requires Sane(calls + [c])
    ensures ReportedOld(Run(EMPTY_TABLES, calls), c).None? <==> CallWrites(Run(EMPTY_TABLES, calls), c)
  {
    assert (calls + [c])[|calls|] == c;
    assert forall i :: 0 <= i < |calls| ==> (calls + [c])[i] == calls[i];
    RunStaysHealthy(calls);
    SuccessIffWritten(Run(EMPTY_TABLES, calls), c);
  }

  /** In every such run a key is read as the endpoint of its last write, or as no route. */
  lemma GetReturnsLastWrite(calls: seq<Call>, key: Key)
    requires Sane(calls)
    ensures var w := WritesTo(EMPTY_TABLES, calls, key);
            Stored(Run(EMPTY_TABLES, calls), key) == if w == [] then NoCustomRoute else Found(Some(w[|w| - 1].endpoint))
  {
    RunShowsLastWrite(calls, key);
    var w := WritesTo(EMPTY_TABLES, calls, key);
    if w != [] {
      TextRoundTrip(w[|w| - 1].endpoint);
      assert ToText(w[|w| - 1].endpoint)[|w[|w| - 1].endpoint.ip|] == '#';
    }
  }

  lemma SaneParts(calls: seq<Call>, c: Call)
    requires Sane(calls + [c])
    ensures Sane(calls) && Plain(c.endpoint) && c.now >= 1.0
  {
    assert (calls + [c])[|calls|] == c;
    assert forall i :: 0 <= i < |calls| ==> (calls + [c])[i] == calls[i];
  }

  /** The last write's timeout is over. */
  predicate IsOver(last: Call, now: real) {
    last.timeout != 0 && last.now + last.timeout as real > 0.0 && now >= last.now + last.timeout as real
  }

  lemma PresentsIff(presented: Option<Endpoint>, e: Endpoint)
    requires Plain(e)
    ensures OldText(presented) == ToText(e) <==> presented == Some(e)
  {
    if OldText(presented) == ToText(e) {
      PresentedTextNamesEndpoint(presented, e);
    }
  }

  ghost predicate MayWrite(w: seq<Call>, c: Call) {
    w == [] || c.presented == Some(w[|w| - 1].endpoint) || IsOver(w[|w| - 1], c.now)
  }

  lemma WritesIffOn(t: Tables, w: seq<Call>, c: Call)
    requires t.routes.Keys == t.deadlines.Keys && ShowsLast(t, w, c.key) && c.now >= 1.0
    ensures CallWrites(t, c) <==> MayWrite(w, c)
  {
    if w == [] {
      assert c.key !in t.deadlines;
    } else {
      PresentsIff(c.presented, w[|w| - 1].endpoint);
    }
  }

  /** In every such run a call writes exactly when its key was never written, when it presents the endpoint that
      was written last, or when that write had a timeout which has passed. */
  lemma WritesIff(calls: seq<Call>, c: Call)
    requires Sane(calls + [c])
    ensures CallWrites(Run(EMPTY_TABLES, calls), c) <==> MayWrite(WritesTo(EMPTY_TABLES, calls, c.key), c)
  {
    SaneParts(calls, c);
    RunStaysHealthy(calls);
    RunShowsLastWrite(calls, c.key);
    WritesIffOn(Run(EMPTY_TABLES, calls), WritesTo(EMPTY_TABLES, calls, c.key), c);
  }

  /** In every such run a refusal names the endpoint of the key's last write. */
  lemma RefusalNamesOwner(calls: seq<Call>, c: Call)
    requires Sane(calls + [c]) && !CallWrites(Run(EMPTY_TABLES, calls), c)
    ensures var w := WritesTo(EMPTY_TABLES, calls, c.key);
            w != [] && ReportedOld(Run(EMPTY_TABLES, calls), c) == Some(w[|w| - 1].endpoint)
  {
    SaneParts(calls, c);
    WritesIff(calls, c);
    RunShowsLastWrite(calls, c.key);
    var w := WritesTo(EMPTY_TABLES, calls, c.key);
    TextRoundTrip(w[|w| - 1].endpoint);
  }

  /** So a caller that presents what it was told writes, when nothing comes in between. */
  lemma PresentingTheReportedWrites(calls: seq<Call>, c: Call, again: Call)
    requires Sane(calls + [c]) && !CallWrites(Run(EMPTY_TABLES, calls), c)
    requires again.key == c.key && again.presented == ReportedOld(Run(EMPTY_TABLES, calls), c)
    ensures CallWrites(Run(EMPTY_TABLES, calls + [c]), again)
  {
    assert (calls + [c])[..|calls|] == calls;
    SaneParts(calls, c);
    RefusalNamesOwner(calls, c);
    RunShowsLastWrite(calls, c.key);
  }

  /** Removing a route leaves every other key as it was. */
  lemma RemovalLeavesOthers(t: Tables, key: Key, c: Call)
    requires c.key != key
    ensures Stored(AfterRemove(t, key), c.key) == Stored(t, c.key)
    ensures CallWrites(AfterRemove(t, key), c) == CallWrites(t, c) && ReportedOld(AfterRemove(t, key), c) == ReportedOld(t, c)
  {
  }

  ghost predicate Replaces(earlier: Call, later: Call) {
    || later.presented == Some(earlier.endpoint)
    || (var d := DeadlineOf(earlier.timeout, earlier.now); d > 0.0 && later.now >= d)
  }

  lemma PresentedTextNamesEndpoint(presented: Option<Endpoint>, e: Endpoint)
    requires Plain(e) && OldText(presented) == ToText(e)
    ensures presented == Some(e)
  {
    assert ToText(e)[|e.ip|] == '#';
    TextRoundTrip(e);
    TextRoundTrip(presented.value);
  }

  ghost predicate IsChain(w: seq<Call>) {
    forall i :: 0 < i < |w| ==> Replaces(w[i - 1], w[i])
  }

  lemma WriterReplacesLast(t: Tables, w: seq<Call>, c: Call)
    requires Healthy(t) && ShowsLast(t, w, c.key) && CallWrites(t, c) && w != []
    ensures Replaces(w[|w| - 1], c)
  {
    if !Expired(t, c.key, c.now) {
      PresentedTextNamesEndpoint(c.presented, w[|w| - 1].endpoint);
    }
  }

  /** Successive writes to a key form a chain: each presents the endpoint it replaces, unless that
      endpoint's deadline had passed. */
  lemma {:induction false} WritesFormAChain(calls: seq<Call>, key: Key)
    requires Sane(calls)
    ensures IsChain(WritesTo(EMPTY_TABLES, calls, key))
  {
    if calls == [] {
    } else {
      var init, c := calls[..|calls| - 1], calls[|calls| - 1];
      WritesFormAChain(init, key);
      RunStaysHealthy(init);
      RunShowsLastWrite(init, key);
      var t, w := Run(EMPTY_TABLES, init), WritesTo(EMPTY_TABLES, init, key);
      if c.key == key && CallWrites(t, c) && w != [] {
        WriterReplacesLast(t, w, c);
      }
    }
  }

  /** For permanent routes the chain is unbroken: every `from` is the previous `to`. */
  lemma PermanentWritesFormAChain(calls: seq<Call>, key: Key)
    requires Sane(calls)
    requires forall i :: 0 <= i < |calls| ==> calls[i].timeout == 0
    ensures var w := WritesTo(EMPTY_TABLES, calls, key);
            forall i :: 0 < i < |w| ==> w[i].presented == Some(w[i - 1].endpoint)
  {
    WritesFormAChain(calls, key);
    WritesAreCalls(EMPTY_TABLES, calls, key);
  }

  lemma {:induction false} WritesAreCalls(t: Tables, calls: seq<Call>, key: Key)
    ensures forall c :: c in WritesTo(t, calls, key) ==> c in calls && c.key == key
  {
    if calls == [] {
    } else {
      WritesAreCalls(t, calls[..|calls| - 1], key);
    }
  }

  /** Removing a permanent route disables its key for good: from then on every call on it reports
      success, and none of them writes. */
  lemma {:induction false} RemovedPermanentRouteStaysGone(t: Tables, key: Key, calls: seq<Call>)
    requires key in t.deadlines && t.deadlines[key] <= 0.0
    ensures var s := Run(AfterRemove(t, key), calls);
            key !in s.routes && key in s.deadlines && s.deadlines[key] == t.deadlines[key]
    ensures forall i :: 0 <= i < |calls| && calls[i].key == key ==>
              var s := Run(AfterRemove(t, key), calls[..i]);
              ReportedOld(s, calls[i]).None? && !CallWrites(s, calls[i])
  {
    if calls == [] {
    } else {
      var init := calls[..|calls| - 1];
      RemovedPermanentRouteStaysGone(t, key, init);
      assert forall i :: 0 <= i < |init| ==> init[..i] == calls[..i];
    }
  }
}
