/**
 What the client's LRU cache of custom routes means: a sequence of cached pairs, most recently used
 first, and the policy that sequence follows.
 */
module Recency {
  import opened Base
  import opened Endpoints
  import opened RouteStore

  datatype Cached = Cached(key: string, endpoint: Option<Endpoint>)

  function KeysOf(s: seq<Cached>): seq<string> {
    seq(|s|, i requires 0 <= i < |s| => s[i].key)
  }

  /** The position of the first occurrence, or the length if there is none. */
  function IndexOf<T(==)>(s: seq<T>, x: T): (i: nat)
    ensures i <= |s| && (i < |s| ==> s[i] == x)
    ensures i < |s| <==> x in s
  {
    if s == [] then 0 else if s[0] == x then 0 else 1 + IndexOf(s[1..], x)
  }

  function Without<T>(s: seq<T>, i: nat): seq<T>
    requires i < |s|
  {
    s[..i] + s[i + 1..]
  }

  /** The eviction loop; it compares the size cut down to 32 bits with the capacity. */
  function Trim(s: seq<Cached>, capacity: U32): seq<Cached> {
    if s != [] && ToU32(|s|) > capacity then Trim(s[..|s| - 1], capacity) else s
  }

  function AfterGet(s: seq<Cached>, capacity: U32, key: string, answer: Lookup): seq<Cached> {
    var i := IndexOf(KeysOf(s), key);
    if i < |s| then [s[i]] + Without(s, i)
    else
      match answer
      case NoCustomRoute => s
      case Found(e) => Trim([Cached(key, e)] + s, capacity)
  }

  function GetResult(s: seq<Cached>, key: string, answer: Lookup): Lookup {
    var i := IndexOf(KeysOf(s), key);
    if i < |s| then Found(s[i].endpoint) else answer
  }

  function AfterRefresh(s: seq<Cached>, key: string, answer: Lookup): seq<Cached> {
    var i := IndexOf(KeysOf(s), key);
    if i == |s| then s
    else
      match answer
      case NoCustomRoute => Without(s, i)
      case Found(e) => s[i := Cached(key, e)]
  }

  datatype Op = Get(key: string, answer: Lookup) | Refresh(key: string, answer: Lookup) | Clear

  function AfterOp(s: seq<Cached>, capacity: U32, op: Op): seq<Cached> {
    match op
    case Get(key, answer) => AfterGet(s, capacity, key, answer)
    case Refresh(key, answer) => AfterRefresh(s, key, answer)
    case Clear => []
  }

  function AfterOps(capacity: U32, ops: seq<Op>): seq<Cached> {
    if ops == [] then [] else AfterOp(AfterOps(capacity, ops[..|ops| - 1]), capacity, ops[|ops| - 1])
  }

  // ---------- the size bound ----------

  lemma TrimToCapacity(s: seq<Cached>, capacity: U32)
    requires |s| <= capacity + 1 < TWO_TO_THE_32
    ensures Trim(s, capacity) == if |s| <= capacity then s else s[..capacity]
  {
  }

  lemma {:induction false} SizeStaysBounded(capacity: U32, ops: seq<Op>)
    requires 0 < capacity < TWO_TO_THE_32 - 1
    ensures |AfterOps(capacity, ops)| <= capacity
  {
    if ops == [] {
    } else {
      var s := AfterOps(capacity, ops[..|ops| - 1]);
      SizeStaysBounded(capacity, ops[..|ops| - 1]);
      match ops[|ops| - 1]
      case Get(key, Found(e)) => TrimToCapacity([Cached(key, e)] + s, capacity);
      case _ =>
    }
  }

  function Name(n: nat): string {
    seq(n, _ => 'k')
  }

  /** With the largest capacity nothing is ever evicted: the size cut to 32 bits never exceeds it. */
  lemma {:induction false} LargestCapacityNeverEvicts(n: nat) returns (ops: seq<Op>)
    ensures |AfterOps(TWO_TO_THE_32 - 1, ops)| == n
    ensures forall c :: c in AfterOps(TWO_TO_THE_32 - 1, ops) ==> |c.key| < n
  {
    if n == 0 {
      ops := [];
    } else {
      var init := LargestCapacityNeverEvicts(n - 1);
      var s := AfterOps(TWO_TO_THE_32 - 1, init);
      var key := Name(n - 1);
      ops := init + [Get(key, Found(None))];
      assert ops[..|ops| - 1] == init;
      assert key !in KeysOf(s) by {
        forall i | 0 <= i < |s| ensures KeysOf(s)[i] != key {
          assert s[i] in s;
        }
      }
      assert AfterOps(TWO_TO_THE_32 - 1, ops) == [Cached(key, None)] + s;
    }
  }

  /** The cache never outgrows its capacity, whatever is asked of it, unless that capacity is the
      largest 32-bit number. */
  lemma SizeBoundIff(capacity: U32)
    requires capacity > 0
    ensures (forall ops :: |AfterOps(capacity, ops)| <= capacity) <==> capacity < TWO_TO_THE_32 - 1
  {
    if capacity < TWO_TO_THE_32 - 1 {
      forall ops ensures |AfterOps(capacity, ops)| <= capacity {
        SizeStaysBounded(capacity, ops);
      }
    } else {
      var ops := LargestCapacityNeverEvicts(TWO_TO_THE_32);
      assert |AfterOps(capacity, ops)| > capacity;
    }
  }

  // ---------- least recently used ----------

  /** `s` without the first `x`. */
  function Drop<T(==)>(s: seq<T>, x: T): seq<T> {
    if s == [] then [] else if s[0] == x then s[1..] else [s[0]] + Drop(s[1..], x)
  }

  /** What stands in front of `x`. */
  function Before<T(==)>(s: seq<T>, x: T): seq<T> {
    if s == [] || s[0] == x then [] else [s[0]] + Before(s[1..], x)
  }

  /** Everything ever asked for, most recent first. */
  function MostRecent<T(==)>(asked: seq<T>): seq<T> {
    if asked == [] then []
    else
      var last := asked[|asked| - 1];
      [last] + Drop(MostRecent(asked[..|asked| - 1]), last)
  }

  function Take<T>(s: seq<T>, n: nat): seq<T> {
    if |s| <= n then s else s[..n]
  }

  lemma {:induction false} DropAtIndex<T>(s: seq<T>, x: T)
    requires x in s
    ensures Drop(s, x) == Without(s, IndexOf(s, x))
  {
    if s[0] != x {
      DropAtIndex(s[1..], x);
    }
  }

  lemma ConsIsDistinct<T>(x: T, s: seq<T>)
    requires Distinct(s) && x !in s
    ensures Distinct([x] + s)
  {
  }

  lemma {:induction false} DropIsDistinct<T>(s: seq<T>, x: T)
    requires Distinct(s)
    ensures Distinct(Drop(s, x))
    ensures forall y :: y in Drop(s, x) <==> y in s && y != x
  {
    if s == [] {
    } else if s[0] == x {
      assert forall y :: y in s <==> y == s[0] || y in s[1..];
    } else {
      DropIsDistinct(s[1..], x);
      assert forall y :: y in s <==> y == s[0] || y in s[1..];
      ConsIsDistinct(s[0], Drop(s[1..], x));
    }
  }

  lemma {:induction false} MostRecentDistinct<T>(asked: seq<T>)
    ensures Distinct(MostRecent(asked))
    ensures forall x :: x in MostRecent(asked) <==> x in asked
  {
    if asked == [] {
    } else {
      var init, x := asked[..|asked| - 1], asked[|asked| - 1];
      MostRecentDistinct(init);
      assert asked == init + [x];
      DropIsDistinct(MostRecent(init), x);
      ConsIsDistinct(x, Drop(MostRecent(init), x));
    }
  }

  lemma TakeCons<T>(x: T, s: seq<T>, n: nat)
    requires n > 0
    ensures Take([x] + s, n) == [x] + Take(s, n - 1)
  {
  }

  function Asked(requests: seq<Cached>): seq<string> {
    KeysOf(requests)
  }

  function Gets(requests: seq<Cached>): seq<Op> {
    seq(|requests|, i requires 0 <= i < |requests| => Get(requests[i].key, Found(requests[i].endpoint)))
  }

  lemma {:induction false} DropThenTake<T>(s: seq<T>, n: nat, x: T)
    requires n > 0
    ensures Take(Drop(s, x), n - 1) == if x in Take(s, n) then Drop(Take(s, n), x) else Take(s, n - 1)
  {
    if s == [] {
    } else {
      var t := s[1..];
      assert s == [s[0]] + t;
      TakeCons(s[0], t, n);
      if s[0] != x && n > 1 {
        DropThenTake(t, n - 1, x);
        TakeCons(s[0], t, n - 1);
        TakeCons(s[0], Drop(t, x), n - 1);
      }
    }
  }

  lemma HitDropsAndAdds(s: seq<Cached>, capacity: U32, key: string, answer: Lookup)
    requires key in KeysOf(s)
    ensures KeysOf(AfterGet(s, capacity, key, answer)) == [key] + Drop(KeysOf(s), key)
  {
    var keys := KeysOf(s);
    DropAtIndex(keys, key);
    KeysOfReordered(s, IndexOf(keys, key));
  }

  lemma KeysOfReordered(s: seq<Cached>, i: nat)
    requires i < |s|
    ensures KeysOf([s[i]] + Without(s, i)) == [KeysOf(s)[i]] + Without(KeysOf(s), i)
  {
  }

  lemma MissAdds(s: seq<Cached>, capacity: U32, key: string, e: Option<Endpoint>)
    requires 0 < capacity < TWO_TO_THE_32 - 1 && |s| <= capacity && key !in KeysOf(s)
    ensures KeysOf(AfterGet(s, capacity, key, Found(e))) == [key] + Take(KeysOf(s), capacity - 1)
  {
    var longer := [Cached(key, e)] + s;
    TrimToCapacity(longer, capacity);
    assert KeysOf(longer) == [key] + KeysOf(s);
    assert KeysOf(Trim(longer, capacity)) == Take(KeysOf(longer), capacity);
    TakeCons(key, KeysOf(s), capacity);
  }

  /** A cache serving any sequence of requests holds exactly the `capacity` most recently used keys. */
  lemma {:induction false} CacheHoldsMostRecent(capacity: U32, requests: seq<Cached>)
    requires 0 < capacity < TWO_TO_THE_32 - 1
    ensures KeysOf(AfterOps(capacity, Gets(requests))) == Take(MostRecent(Asked(requests)), capacity)
  {
    if requests == [] {
    } else {
      var init, last := requests[..|requests| - 1], requests[|requests| - 1];
      CacheHoldsMostRecent(capacity, init);
      assert Gets(requests)[..|requests| - 1] == Gets(init);
      assert Asked(requests)[..|requests| - 1] == Asked(init);
      OneMoreGet(AfterOps(capacity, Gets(init)), MostRecent(Asked(init)), capacity, last);
    }
  }

  lemma OneMoreGet(s: seq<Cached>, r: seq<string>, capacity: U32, last: Cached)
    requires 0 < capacity < TWO_TO_THE_32 - 1 && KeysOf(s) == Take(r, capacity)
    ensures KeysOf(AfterGet(s, capacity, last.key, Found(last.endpoint))) == Take([last.key] + Drop(r, last.key), capacity)
  {
    if last.key in KeysOf(s) {
      HitDropsAndAdds(s, capacity, last.key, Found(last.endpoint));
    } else {
      MissAdds(s, capacity, last.key, last.endpoint);
    }
    DropThenTake(r, capacity, last.key);
    TakeCons(last.key, Drop(r, last.key), capacity);
    assert Take(Take(r, capacity), capacity - 1) == Take(r, capacity - 1);
  }

  /** What was asked after the last request for `x`. */
  function Since<T(==)>(asked: seq<T>, x: T): seq<T> {
    if asked == [] || asked[|asked| - 1] == x then [] else Since(asked[..|asked| - 1], x) + [asked[|asked| - 1]]
  }

  lemma {:induction false} BeforeAfterDrop<T>(s: seq<T>, m: T, x: T)
    requires m != x
    ensures {m} + SetOf(Before(Drop(s, m), x)) == {m} + SetOf(Before(s, x))
  {
    if s == [] || s[0] == x {
    } else if s[0] == m {
      assert SetOf(Before(s, x)) == {m} + SetOf(Before(s[1..], x));
    } else {
      BeforeAfterDrop(s[1..], m, x);
      assert Drop(s, m)[1..] == Drop(s[1..], m);
      assert SetOf(Before(s, x)) == {s[0]} + SetOf(Before(s[1..], x));
      assert SetOf(Before(Drop(s, m), x)) == {s[0]} + SetOf(Before(Drop(s[1..], m), x));
    }
  }

  /** What is more recent than `x` is what has been asked for since. */
  lemma {:induction false} MoreRecentIsSince<T>(asked: seq<T>, x: T)
    requires x in asked
    ensures SetOf(Before(MostRecent(asked), x)) == SetOf(Since(asked, x))
  {
    var init, m := asked[..|asked| - 1], asked[|asked| - 1];
    assert asked == init + [m];
    if m != x {
      MoreRecentIsSince(init, x);
      var r := MostRecent(init);
      BeforeAfterDrop(r, m, x);
      assert MostRecent(asked)[1..] == Drop(r, m);
      assert SetOf(Before(MostRecent(asked), x)) == {m} + SetOf(Before(Drop(r, m), x));
      assert SetOf(Since(asked, x)) == SetOf(Since(init, x)) + {m};
    }
  }

  lemma {:induction false} BeforeIsDistinct<T>(s: seq<T>, x: T)
    requires Distinct(s)
    ensures Before(s, x) <= s && |SetOf(Before(s, x))| == |Before(s, x)|
  {
    if s == [] || s[0] == x {
    } else {
      BeforeIsDistinct(s[1..], x);
      assert SetOf(Before(s, x)) == {s[0]} + SetOf(Before(s[1..], x));
      assert s[0] !in Before(s[1..], x);
    }
  }

  lemma {:induction false} PlaceInTake<T>(s: seq<T>, n: nat, x: T)
    requires x in s
    ensures x in Take(s, n) <==> |Before(s, x)| < n
  {
    if n > 0 {
      assert Take(s, n) == [s[0]] + Take(s[1..], n - 1);
      if s[0] != x {
        PlaceInTake(s[1..], n - 1, x);
      }
    }
  }

  /** The least-recently-used law: a key is cached exactly when it has been asked for and fewer than
      `capacity` different keys have been asked for since. */
  lemma CachedIffUsedRecently(capacity: U32, requests: seq<Cached>, key: string)
    requires 0 < capacity < TWO_TO_THE_32 - 1
    ensures key in KeysOf(AfterOps(capacity, Gets(requests))) <==>
            key in Asked(requests) && |SetOf(Since(Asked(requests), key))| < capacity
  {
    var asked := Asked(requests);
    var r := MostRecent(asked);
    CacheHoldsMostRecent(capacity, requests);
    MostRecentDistinct(asked);
    if key in asked {
      MoreRecentIsSince(asked, key);
      BeforeIsDistinct(r, key);
      PlaceInTake(r, capacity, key);
    }
  }

  // ---------- any operations ----------

  /** The keys in front of `x`, if `x` is there. */
  ghost function FrontIn<T>(keys: seq<T>, x: T): Option<set<T>> {
    if x in keys then Some(SetOf(Before(keys, x))) else None
  }

  /** What an operation means for a key `x` when `front` holds the keys that were used since `x` was and not
      removed, if `x` is cached itself. `hit` says whether the key that is asked for is cached. A miss that
      the store does not answer is no use; a key is evicted when `capacity` keys have come before it. */
  ghost function FrontAfter(capacity: U32, op: Op, front: Option<set<string>>, hit: bool, x: string): Option<set<string>> {
    match op
    case Clear => None
    case Refresh(key, answer) =>
      if answer.Found? then front
      else if key == x || front.None? then None
      else Some(front.value - {key})
    case Get(key, answer) =>
      if !hit && answer.NoCustomRoute? then front
      else if key == x then Some({})
      else if front.Some? && |front.value + {key}| < capacity then Some(front.value + {key})
      else None
  }

  /** The same over a sequence of operations, without reference to the cache. */
  ghost function Front(capacity: U32, ops: seq<Op>, x: string): Option<set<string>> {
    if ops == [] then None
    else
      var init, op := ops[..|ops| - 1], ops[|ops| - 1];
      FrontAfter(capacity, op, Front(capacity, init, x), op.Get? && Front(capacity, init, op.key).Some?, x)
  }

  lemma BeforeCons<T>(first: T, rest: seq<T>, x: T)
    requires x != first
    ensures x in [first] + rest <==> x in rest
    ensures SetOf(Before([first] + rest, x)) == {first} + SetOf(Before(rest, x))
  {
    assert ([first] + rest)[1..] == rest;
    assert Before([first] + rest, x) == [first] + Before(rest, x);
  }

  lemma FrontIsSmall<T>(keys: seq<T>, key: T, x: T)
    requires Distinct(keys) && key in keys && x in keys && x != key
    ensures |SetOf(Before(keys, x)) + {key}| < |keys|
  {
    BeforeIsDistinct(keys, x);
    BeforeExcludes(keys, x);
    SizeOfDistinct(keys);
    SubsetIsNoLarger(SetOf(Before(keys, x)) + {key}, SetOf(keys) - {x});
  }

  lemma FrontOfHit<T>(keys: seq<T>, key: T, x: T)
    requires Distinct(keys) && key in keys && x != key
    ensures FrontIn([key] + Drop(keys, key), x) == if x in keys then Some(SetOf(Before(keys, x)) + {key}) else None
  {
    BeforeCons(key, Drop(keys, key), x);
    DropIsDistinct(keys, key);
    BeforeAfterDrop(keys, key, x);
    assert {key} + SetOf(Before(keys, x)) == SetOf(Before(keys, x)) + {key};
  }

  lemma FrontOfFirst<T>(first: T, rest: seq<T>)
    ensures FrontIn([first] + rest, first) == Some({})
  {
    assert Before([first] + rest, first) == [];
    assert SetOf<T>([]) == {};
  }

  lemma SubsetIsNoLarger<T>(a: set<T>, b: set<T>)
    requires a <= b
    ensures |a| <= |b|
  {
    assert |b - a| == |b| - |a|;
  }

  lemma {:induction false} BeforeExcludes<T>(s: seq<T>, x: T)
    ensures x !in Before(s, x)
  {
    if s != [] && s[0] != x {
      BeforeExcludes(s[1..], x);
    }
  }

  lemma {:induction false} BeforeInTake<T>(s: seq<T>, n: nat, x: T)
    requires x in Take(s, n)
    ensures Before(Take(s, n), x) == Before(s, x)
  {
    assert Take(s, n) == [s[0]] + Take(s[1..], n - 1);
    if s[0] != x {
      BeforeInTake(s[1..], n - 1, x);
      assert Take(s, n)[1..] == Take(s[1..], n - 1);
    }
  }

  lemma FrontHasRoom<T>(keys: seq<T>, key: T, x: T, capacity: U32)
    requires Distinct(keys) && key !in keys && x in keys && capacity > 0
    ensures x in Take(keys, capacity - 1) <==> |SetOf(Before(keys, x)) + {key}| < capacity
  {
    PlaceInTake(keys, capacity - 1, x);
    BeforeIsDistinct(keys, x);
    assert key !in SetOf(Before(keys, x));
  }

  lemma FrontOfMiss<T>(keys: seq<T>, key: T, x: T, capacity: U32)
    requires Distinct(keys) && key !in keys && x != key && capacity > 0
    ensures FrontIn([key] + Take(keys, capacity - 1), x) ==
            if x in keys && |SetOf(Before(keys, x)) + {key}| < capacity then Some(SetOf(Before(keys, x)) + {key}) else None
  {
    BeforeCons(key, Take(keys, capacity - 1), x);
    if x in Take(keys, capacity - 1) {
      BeforeInTake(keys, capacity - 1, x);
      assert {key} + SetOf(Before(keys, x)) == SetOf(Before(keys, x)) + {key};
    }
    if x in keys {
      FrontHasRoom(keys, key, x, capacity);
    }
  }

  lemma BeforeDropped<T>(s: seq<T>, m: T, x: T)
    requires Distinct(s) && m != x
    ensures SetOf(Before(Drop(s, m), x)) == SetOf(Before(s, x)) - {m}
  {
    BeforeAfterDrop(s, m, x);
    DropIsDistinct(s, m);
    BeforeIsDistinct(Drop(s, m), x);
    assert m !in SetOf(Before(Drop(s, m), x));
  }

  lemma FrontOfDrop<T>(keys: seq<T>, key: T, x: T)
    requires Distinct(keys)
    ensures FrontIn(Drop(keys, key), x) == if x in keys && x != key then Some(SetOf(Before(keys, x)) - {key}) else None
  {
    DropIsDistinct(keys, key);
    if x != key {
      BeforeDropped(keys, key, x);
    }
  }

  lemma TakeIsDistinct<T>(s: seq<T>, n: nat)
    requires Distinct(s)
    ensures Distinct(Take(s, n)) && forall x :: x in Take(s, n) ==> x in s
  {
  }

  ghost predicate Proper(s: seq<Cached>, capacity: U32) {
    Distinct(KeysOf(s)) && |s| <= capacity && 0 < capacity < TWO_TO_THE_32 - 1
  }

  lemma HitKeepsFronts(s: seq<Cached>, capacity: U32, key: string, answer: Lookup, x: string)
    requires Proper(s, capacity) && key in KeysOf(s)
    ensures Distinct(KeysOf(AfterGet(s, capacity, key, answer)))
    ensures FrontIn(KeysOf(AfterGet(s, capacity, key, answer)), x) ==
            FrontAfter(capacity, Get(key, answer), FrontIn(KeysOf(s), x), true, x)
  {
    var keys := KeysOf(s);
    HitDropsAndAdds(s, capacity, key, answer);
    DropIsDistinct(keys, key);
    ConsIsDistinct(key, Drop(keys, key));
    if x == key {
      FrontOfFirst(key, Drop(keys, key));
    } else {
      FrontOfHit(keys, key, x);
      if x in keys {
        FrontIsSmall(keys, key, x);
      }
    }
  }

  lemma MissKeepsFronts(s: seq<Cached>, capacity: U32, key: string, e: Option<Endpoint>, x: string)
    requires Proper(s, capacity) && key !in KeysOf(s)
    ensures Distinct(KeysOf(AfterGet(s, capacity, key, Found(e))))
    ensures FrontIn(KeysOf(AfterGet(s, capacity, key, Found(e))), x) ==
            FrontAfter(capacity, Get(key, Found(e)), FrontIn(KeysOf(s), x), false, x)
  {
    var keys := KeysOf(s);
    MissAdds(s, capacity, key, e);
    TakeIsDistinct(keys, capacity - 1);
    ConsIsDistinct(key, Take(keys, capacity - 1));
    if x == key {
      FrontOfFirst(key, Take(keys, capacity - 1));
    } else {
      FrontOfMiss(keys, key, x, capacity);
    }
  }

  lemma GetKeepsFronts(s: seq<Cached>, capacity: U32, key: string, answer: Lookup, x: string)
    requires Proper(s, capacity)
    ensures Distinct(KeysOf(AfterGet(s, capacity, key, answer)))
    ensures FrontIn(KeysOf(AfterGet(s, capacity, key, answer)), x) ==
            FrontAfter(capacity, Get(key, answer), FrontIn(KeysOf(s), x), key in KeysOf(s), x)
  {
    if key in KeysOf(s) {
      HitKeepsFronts(s, capacity, key, answer, x);
    } else if answer.Found? {
      MissKeepsFronts(s, capacity, key, answer.endpoint, x);
    }
  }

  lemma KeysAfterRefresh(s: seq<Cached>, key: string, answer: Lookup)
    ensures KeysOf(AfterRefresh(s, key, answer)) == if answer.Found? then KeysOf(s) else Drop(KeysOf(s), key)
  {
    var keys, i := KeysOf(s), IndexOf(KeysOf(s), key);
    if i < |s| {
      DropAtIndex(keys, key);
      assert KeysOf(Without(s, i)) == Without(keys, i);
    } else {
      DropAbsent(keys, key);
    }
  }

  lemma {:induction false} DropAbsent<T>(s: seq<T>, x: T)
    requires x !in s
    ensures Drop(s, x) == s
  {
    if s != [] {
      DropAbsent(s[1..], x);
      assert s == [s[0]] + s[1..];
    }
  }

  lemma RefreshKeepsFronts(s: seq<Cached>, capacity: U32, key: string, answer: Lookup, x: string)
    requires Proper(s, capacity)
    ensures Distinct(KeysOf(AfterRefresh(s, key, answer)))
    ensures FrontIn(KeysOf(AfterRefresh(s, key, answer)), x) ==
            FrontAfter(capacity, Refresh(key, answer), FrontIn(KeysOf(s), x), false, x)
  {
    KeysAfterRefresh(s, key, answer);
    DropIsDistinct(KeysOf(s), key);
    FrontOfDrop(KeysOf(s), key, x);
  }

  lemma {:induction false} CacheIsProper(capacity: U32, ops: seq<Op>)
    requires 0 < capacity < TWO_TO_THE_32 - 1
    ensures Proper(AfterOps(capacity, ops), capacity)
  {
    SizeStaysBounded(capacity, ops);
    if ops != [] {
      CacheIsProper(capacity, ops[..|ops| - 1]);
      var s := AfterOps(capacity, ops[..|ops| - 1]);
      match ops[|ops| - 1]
      case Get(key, answer) => GetKeepsFronts(s, capacity, key, answer, key);
      case Refresh(key, answer) => RefreshKeepsFronts(s, capacity, key, answer, key);
      case Clear =>
    }
  }

  /** After any operations with any store answers, a key is cached exactly when `Front` says so, behind exactly
      the keys that were used since and not removed. */
  lemma {:induction false} CachedIffFront(capacity: U32, ops: seq<Op>, x: string)
    requires 0 < capacity < TWO_TO_THE_32 - 1
    ensures FrontIn(KeysOf(AfterOps(capacity, ops)), x) == Front(capacity, ops, x)
  {
    if ops != [] {
      var init, op := ops[..|ops| - 1], ops[|ops| - 1];
      var s := AfterOps(capacity, init);
      CachedIffFront(capacity, init, x);
      CacheIsProper(capacity, init);
      match op
      case Get(key, answer) =>
        CachedIffFront(capacity, init, key);
        GetKeepsFronts(s, capacity, key, answer, x);
      case Refresh(key, answer) => RefreshKeepsFronts(s, capacity, key, answer, x);
      case Clear =>
    }
  }

  // ---------- which endpoint is cached ----------

  /** The endpoint the store gave for a cached key: at the miss that cached it, or at the last refresh that was
      answered since. */
  ghost function Held(capacity: U32, ops: seq<Op>, x: string): Option<Option<Endpoint>> {
    if ops == [] || Front(capacity, ops, x).None? then None
    else
      var init, op := ops[..|ops| - 1], ops[|ops| - 1];
      match op
      case Get(key, Found(e)) =>
        if key == x && Front(capacity, init, x).None? then Some(e) else Held(capacity, init, x)
      case Refresh(key, Found(e)) =>
        if key == x then Some(e) else Held(capacity, init, x)
      case _ => Held(capacity, init, x)
  }

  lemma TakesFromFront(s: seq<Cached>, capacity: U32)
    requires |s| <= capacity + 1 < TWO_TO_THE_32 && capacity > 0 && s != []
    ensures Trim(s, capacity) != [] && Trim(s, capacity)[0] == s[0] && Trim(s, capacity) <= s
  {
    TrimToCapacity(s, capacity);
  }

  lemma KeyIsThere(s: seq<Cached>, x: string) returns (i: nat)
    requires x in KeysOf(s)
    ensures i < |s| && s[i].key == x
  {
    i := IndexOf(KeysOf(s), x);
  }

  lemma SameKeySamePair(s: seq<Cached>, a: Cached, b: Cached)
    requires Distinct(KeysOf(s)) && a in s && b in s && a.key == b.key
    ensures a == b
  {
    var i :| 0 <= i < |s| && s[i] == a;
    var j :| 0 <= j < |s| && s[j] == b;
    assert KeysOf(s)[i] == KeysOf(s)[j];
  }

  /** A hit moves its pair and loses none. */
  lemma HitKeepsPairs(s: seq<Cached>, capacity: U32, key: string, answer: Lookup, c: Cached)
    requires key in KeysOf(s) && c in s
    ensures c in AfterGet(s, capacity, key, answer)
  {
    var i := IndexOf(KeysOf(s), key);
    var j :| 0 <= j < |s| && s[j] == c;
    assert j < i ==> Without(s, i)[j] == c;
    assert j > i ==> Without(s, i)[j - 1] == c;
  }

  /** A stored miss puts the store's endpoint first, and what else is left was there before. */
  lemma MissStoresPair(s: seq<Cached>, capacity: U32, key: string, e: Option<Endpoint>, c: Cached)
    requires Proper(s, capacity) && key !in KeysOf(s)
    ensures Cached(key, e) in AfterGet(s, capacity, key, Found(e))
    ensures c in s && c.key in KeysOf(AfterGet(s, capacity, key, Found(e))) ==> c in AfterGet(s, capacity, key, Found(e))
  {
    var longer := [Cached(key, e)] + s;
    var s' := AfterGet(s, capacity, key, Found(e));
    TakesFromFront(longer, capacity);
    if c in s && c.key in KeysOf(s') {
      var i := KeyIsThere(s', c.key);
      assert s'[i] == longer[i];
      assert c.key in KeysOf(s) by {
        var j :| 0 <= j < |s| && s[j] == c;
        assert KeysOf(s)[j] == c.key;
      }
      assert i > 0;
      assert s'[i] == s[i - 1];
      SameKeySamePair(s, c, s'[i]);
    }
  }

  lemma RefreshKeepsPairs(s: seq<Cached>, key: string, answer: Lookup, c: Cached)
    requires c in s && c.key != key
    ensures c in AfterRefresh(s, key, answer)
  {
    var i := IndexOf(KeysOf(s), key);
    var j :| 0 <= j < |s| && s[j] == c;
    if i < |s| {
      match answer
      case Found(e) => assert s[i := Cached(key, e)][j] == c;
      case NoCustomRoute =>
        assert j < i ==> Without(s, i)[j] == c;
        assert j > i ==> Without(s, i)[j - 1] == c;
    }
  }

  lemma RefreshStoresPair(s: seq<Cached>, key: string, e: Option<Endpoint>)
    requires key in KeysOf(s)
    ensures Cached(key, e) in AfterRefresh(s, key, Found(e))
  {
    assert s[IndexOf(KeysOf(s), key) := Cached(key, e)][IndexOf(KeysOf(s), key)] == Cached(key, e);
  }

  /** Whatever is cached is held with the endpoint of `Held`. */
  lemma {:induction false} HeldIsCached(capacity: U32, ops: seq<Op>, x: string)
    requires 0 < capacity < TWO_TO_THE_32 - 1 && Front(capacity, ops, x).Some?
    ensures Held(capacity, ops, x).Some? && Cached(x, Held(capacity, ops, x).value) in AfterOps(capacity, ops)
  {
    var init, op := ops[..|ops| - 1], ops[|ops| - 1];
    var s := AfterOps(capacity, init);
    CachedIffFront(capacity, ops, x);
    CachedIffFront(capacity, init, x);
    CacheIsProper(capacity, init);
    if Front(capacity, init, x).Some? {
      HeldIsCached(capacity, init, x);
    }
    match op
    case Get(key, answer) =>
      if key in KeysOf(s) {
        if Front(capacity, init, x).Some? {
          HitKeepsPairs(s, capacity, key, answer, Cached(x, Held(capacity, init, x).value));
        }
      } else if answer.Found? {
        CachedIffFront(capacity, init, key);
        MissStoresPair(s, capacity, key, answer.endpoint, Cached(x, if Front(capacity, init, x).Some? then Held(capacity, init, x).value else None));
      }
    case Refresh(key, answer) =>
      if key != x {
        RefreshKeepsPairs(s, key, answer, Cached(x, Held(capacity, init, x).value));
      } else if answer.Found? {
        RefreshStoresPair(s, key, answer.endpoint);
      }
    case Clear =>
  }

  /** After any operations with any store answers, asking for a key returns the endpoint that the store gave at
      the miss that cached it or at the last answered refresh since, if it is cached; otherwise it returns what
      the store answers now. */
  lemma GetReturnsHeld(capacity: U32, ops: seq<Op>, x: string, answer: Lookup)
    requires 0 < capacity < TWO_TO_THE_32 - 1
    ensures GetResult(AfterOps(capacity, ops), x, answer) ==
            match Held(capacity, ops, x) { case Some(e) => Found(e) case None => answer }
    ensures Held(capacity, ops, x).Some? <==> Front(capacity, ops, x).Some?
  {
    var s := AfterOps(capacity, ops);
    CachedIffFront(capacity, ops, x);
    CacheIsProper(capacity, ops);
    if Front(capacity, ops, x).Some? {
      HeldIsCached(capacity, ops, x);
      var i := IndexOf(KeysOf(s), x);
      assert KeysOf(s)[i] == s[i].key;
      SameKeySamePair(s, s[i], Cached(x, Held(capacity, ops, x).value));
    }
  }
}
