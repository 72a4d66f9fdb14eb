/** The direct strategy: an endpoint chosen by the value of one header, looked up through a cache. */
module Directs {
  import opened Base
  import opened Endpoints
  import opened RouteStore
  import opened Recency
  import opened LruCaches

  const DEFAULT_CACHE_SIZE: U32 := 4096

  datatype CacheType = CacheNone | CacheLru | CacheOther

  /** What a cache is to the strategy; `PassThrough` asks the store every time. */
  datatype Cache = PassThrough | Lru(capacity: U32, contents: seq<Cached>)

  function CacheGet(c: Cache, value: string, answer: Lookup): Lookup {
    match c
    case PassThrough => answer
    case Lru(_, s) => GetResult(s, value, answer)
  }

  function CacheAfterGet(c: Cache, value: string, answer: Lookup): Cache {
    match c
    case PassThrough => c
    case Lru(capacity, s) => Lru(capacity, AfterGet(s, capacity, value, answer))
  }

  function CacheAfterRefresh(c: Cache, value: string, answer: Lookup): Cache {
    match c
    case PassThrough => c
    case Lru(capacity, s) => Lru(capacity, AfterRefresh(s, value, answer))
  }

  datatype Pick =
    | Picked(endpoint: Endpoint)
    | Unavailable(endpoint: Endpoint)  // the route's endpoint is not registered
    | NoKey
    | NoEndpoint
    | NoValue
    | NoRoute

  /** The choice once the header value is known. */
  function PickFor(c: Cache, endpoints: set<Endpoint>, value: string, answer: Lookup): Pick {
    match CacheGet(c, value, answer)
    case NoCustomRoute => NoRoute
    case Found(None) => NoEndpoint
    case Found(Some(e)) => if e in endpoints then Picked(e) else Unavailable(e)
  }

  class DirectStrategy {
    const headerKey: string
    const lru: LruCache?  // null for the cache that always asks the store
    var endpoints: set<Endpoint>

    ghost predicate Valid()
      reads this, lru, if lru == null then {} else lru.repr
    {
      lru != null ==> lru.Valid()
    }

    ghost function View(): Cache
      reads lru
    {
      if lru == null then PassThrough else Lru(lru.capacity, lru.contents)
    }

    constructor Build(headerKey: string, cacheType: CacheType, cacheSize: Option<U32>)
      ensures Valid() && this.headerKey == headerKey && endpoints == {}
      ensures View() == if cacheType.CacheLru? then
                          Lru(if cacheSize.Some? && cacheSize.value != 0 then cacheSize.value else 4096, [])
                        else PassThrough
    {
      var size := DEFAULT_CACHE_SIZE;
      if cacheSize.Some? && cacheSize.value != 0 {
        size := cacheSize.value;
      }
      this.headerKey := headerKey;
      endpoints := {};
      if cacheType.CacheLru? {
        var c := new LruCache(size);
        lru := c;
      } else {
        lru := null;
      }
    }

    /** `added` are the headers that go with an endpoint, even one that is not registered. */
    method Select(headers: map<string, string>, answer: Lookup) returns (r: Pick, added: Option<map<string, string>>)
      requires Valid()
      modifies lru, if lru == null then {} else lru.repr
      ensures Valid()
      ensures if headerKey == "" then r == NoKey && View() == old(View())
              else if endpoints == {} then r == NoEndpoint && View() == old(View())
              else if headerKey !in headers then r == NoValue && View() == old(View())
              else
                && r == PickFor(old(View()), endpoints, headers[headerKey], answer)
                && View() == CacheAfterGet(old(View()), headers[headerKey], answer)
      ensures added == if r.Picked? || r.Unavailable? then Some(map["yapr-header-value" := headers[headerKey]]) else None
    {
      if headerKey == "" {
        return NoKey, None;
      }
      if endpoints == {} {
        return NoEndpoint, None;
      }
      if headerKey !in headers {
        return NoValue, None;
      }
      var value := headers[headerKey];
      var found := answer;
      if lru != null {
        found := lru.Get(value, answer);
      }
      if found.NoCustomRoute? {
        return NoRoute, None;
      }
      if found.endpoint.None? {
        return NoEndpoint, None;
      }
      added := Some(map["yapr-header-value" := value]);
      r := if found.endpoint.value in endpoints then Picked(found.endpoint.value) else Unavailable(found.endpoint.value);
    }

    method Update(endpoints: set<Endpoint>)
      requires Valid()
      modifies this
      ensures Valid() && this.endpoints == endpoints && View() == old(View())
    {
      this.endpoints := endpoints;
    }

    method NotifyRetry(value: string, answer: Lookup)
      requires Valid()
      modifies lru, if lru == null then {} else lru.repr
      ensures Valid()
      ensures View() == CacheAfterRefresh(old(View()), value, answer)
    {
      if lru != null {
        lru.Refresh(value, answer);
      }
    }
  }

  // ---------- what is picked ----------

  /** The pick for an answer, be it held by the cache or given by the store now. */
  ghost predicate IsPickOf(pick: Pick, held: Lookup, endpoints: set<Endpoint>) {
    match held
    case NoCustomRoute => pick == NoRoute
    case Found(None) => pick == NoEndpoint
    case Found(Some(e)) => pick == if e in endpoints then Picked(e) else Unavailable(e)
  }

  /** With an LRU cache, after whatever it has served, the pick is decided by the endpoint it holds for the value,
      or by the store's answer if it holds none; without a cache, always by the store's answer. */
  lemma PickIs(capacity: U32, ops: seq<Op>, endpoints: set<Endpoint>, value: string, answer: Lookup)
    requires 0 < capacity < TWO_TO_THE_32 - 1
    ensures IsPickOf(PickFor(PassThrough, endpoints, value, answer), answer, endpoints)
    ensures IsPickOf(PickFor(Lru(capacity, AfterOps(capacity, ops)), endpoints, value, answer),
                     match Held(capacity, ops, value) { case Some(e) => Found(e) case None => answer }, endpoints)
  {
    GetReturnsHeld(capacity, ops, value, answer);
  }

  /** A pick is a get of the cache, and a retry a refresh. */
  lemma PicksAndRetriesAreOps(capacity: U32, ops: seq<Op>, value: string, answer: Lookup)
    ensures CacheAfterGet(Lru(capacity, AfterOps(capacity, ops)), value, answer) == Lru(capacity, AfterOps(capacity, ops + [Get(value, answer)]))
    ensures CacheAfterRefresh(Lru(capacity, AfterOps(capacity, ops)), value, answer) ==
            Lru(capacity, AfterOps(capacity, ops + [Refresh(value, answer)]))
    ensures CacheAfterGet(PassThrough, value, answer) == PassThrough == CacheAfterRefresh(PassThrough, value, answer)
  {
    assert (ops + [Get(value, answer)])[..|ops|] == ops && (ops + [Refresh(value, answer)])[..|ops|] == ops;
  }

  // ---------- one request after another ----------

  /** The newest pair is never the one evicted. */
  lemma {:induction false} TrimKeepsFirst(s: seq<Cached>, capacity: U32)
    requires s != [] && capacity > 0
    ensures Trim(s, capacity) != [] && Trim(s, capacity)[0] == s[0]
  {
    if ToU32(|s|) > capacity {
      assert |s| > 1;
      TrimKeepsFirst(s[..|s| - 1], capacity);
    }
  }

  lemma GetThenRefresh(s: seq<Cached>, capacity: U32, value: string, answer: Lookup)
    requires capacity > 0 && answer.Found?
    ensures var s' := AfterRefresh(AfterGet(s, capacity, value, answer), value, answer);
            s' != [] && s'[0] == Cached(value, answer.endpoint)
  {
    var t := AfterGet(s, capacity, value, answer);
    if IndexOf(KeysOf(s), value) == |s| {
      TrimKeepsFirst([Cached(value, answer.endpoint)] + s, capacity);
    }
    assert KeysOf(t)[0] == value;
  }

  /** After a pick and a retry notification, the next pick is the store's answer, whatever the cache
      held before. */
  lemma RetryPicksStored(c: Cache, value: string, answer: Lookup)
    requires answer.Found? && (c.Lru? ==> c.capacity > 0)
    ensures var c' := CacheAfterRefresh(CacheAfterGet(c, value, answer), value, answer);
            && CacheGet(c', value, answer) == answer
            && CacheGet(CacheAfterRefresh(CacheAfterGet(c', value, answer), value, answer), value, answer) == answer
            && (c'.Lru? ==> c'.capacity > 0)
  {
    if c.Lru? {
      var s' := AfterRefresh(AfterGet(c.contents, c.capacity, value, answer), value, answer);
      GetThenRefresh(c.contents, c.capacity, value, answer);
      assert KeysOf(s')[0] == value;
      GetThenRefresh(s', c.capacity, value, answer);
      var s'' := AfterRefresh(AfterGet(s', c.capacity, value, answer), value, answer);
      assert KeysOf(s'')[0] == value;
    }
  }
}
