/**
 The consistent-hash ring: every endpoint is placed at eight points for each unit of weight, and a key
 goes to the first point at or after its hash, or to the least point of all. The hash is any function
 from text to 32-bit numbers, so points may collide; a later placement then wins.
 */
module HashRing {
  import opened Base
  import opened Text
  import opened Endpoints
  import opened TreeMaps
  import opened Weighted

  const POINTS_PER_WEIGHT := 8

  type Ring = map<int, Endpoint>

  /** The `i`-th point of an endpoint. */
  function Point(hash: string -> U32, e: Endpoint, i: nat): U32 {
    hash(ToText(e) + Itoa(i))
  }

  /** The ring after placing `n` points of an endpoint. */
  function Placed(hash: string -> U32, ring: Ring, e: Endpoint, n: nat): Ring {
    if n == 0 then ring else Placed(hash, ring, e, n - 1)[Point(hash, e, n - 1) := e]
  }

  function RingOf(hash: string -> U32, slots: seq<Slot>): Ring {
    if slots == [] then map[]
    else
      var last := slots[|slots| - 1];
      Placed(hash, RingOf(hash, slots[..|slots| - 1]), last.endpoint, last.weight * POINTS_PER_WEIGHT)
  }

  /** The owner of the first point at or after `h`, going around past the last one. */
  function Choice(ring: Ring, h: int): Option<Endpoint> {
    match Ceiling(ring, h)
    case Some(p) => Some(ring[p])
    case None =>
      match Min(ring)
      case Some(p) => Some(ring[p])
      case None => None
  }

  /** How far round the ring point `p` lies from `h`. */
  function Distance(h: int, p: int): int {
    if p >= h then p - h else p - h + TWO_TO_THE_32
  }

  lemma RingOfOneMore(hash: string -> U32, slots: seq<Slot>, slot: Slot)
    ensures RingOf(hash, slots + [slot]) == Placed(hash, RingOf(hash, slots), slot.endpoint, slot.weight * POINTS_PER_WEIGHT)
  {
    assert (slots + [slot])[..|slots|] == slots;
  }

  datatype Pick = Picked(endpoint: Endpoint) | NoEndpoint | NoValue

  class HashRingStrategy {
    const headerKey: string
    const hash: string -> U32
    var ring: Ring

    constructor (headerKey: string, hash: string -> U32)
      ensures this.headerKey == headerKey && this.hash == hash && ring == map[]
    {
      this.headerKey, this.hash := headerKey, hash;
      ring := map[];
    }

    method Update(attrs: map<Endpoint, Option<U32>>, order: seq<Endpoint>)
      requires VisitOrder(attrs, order)
      modifies this
      ensures ring == RingOf(hash, Slots(attrs, order))
    {
      ring := map[];
      ghost var all := Slots(attrs, order);
      for k := 0 to |order|
        invariant ring == RingOf(hash, all[..k])
      {
        var e := order[k];
        NextSlot(attrs, order, k);
        RingOfOneMore(hash, all[..k], all[k]);
        var weight: U32 := 1;
        if attrs[e].Some? {
          weight := attrs[e].value;
        }
        PlacePoints(e, weight);
      }
      assert all[..|order|] == all;
    }

    /** The inner loop of `Update`. */
    method PlacePoints(e: Endpoint, weight: U32)
      modifies this`ring
      ensures ring == Placed(hash, old(ring), e, weight * POINTS_PER_WEIGHT)
    {
      for i := 0 to weight * POINTS_PER_WEIGHT
        invariant ring == Placed(hash, old(ring), e, i)
      {
        var hashCode := hash(ToText(e) + Itoa(i));
        ring := ring[hashCode := e];
      }
    }

    method Select(headers: map<string, string>) returns (r: Pick)
      ensures r.NoEndpoint? <==> ring == map[]
      ensures r.NoValue? <==> ring != map[] && headerKey !in headers
      ensures r.Picked? ==> Choice(ring, hash(headers[headerKey])) == Some(r.endpoint)
    {
      if |ring| == 0 {
        return NoEndpoint;
      }
      if headerKey !in headers {
        return NoValue;
      }
      var hashed := hash(headers[headerKey]);
      var k := Ceiling(ring, hashed);
      if k.None? {
        k := Min(ring);
        if k.None? {
          return NoEndpoint;
        }
      }
      r := Picked(ring[k.value]);
    }
  }

  // ---------- minimal disruption in one order of the visit ----------

  /** `big` has every point of `small`, and differs from it only at points owned by `x`. */
  ghost predicate GrewFor(small: Ring, big: Ring, x: Endpoint) {
    && (forall p :: p in small ==> p in big)
    && (forall p :: p in big ==> big[p] == x || (p in small && small[p] == big[p]))
  }

  lemma ChoiceMovesOnlyTo(small: Ring, big: Ring, x: Endpoint, h: U32)
    requires GrewFor(small, big, x)
    ensures Choice(big, h) == Choice(small, h) || Choice(big, h) == Some(x)
  {
  }

  lemma {:induction false} PlacingMoreGrows(hash: string -> U32, ring: Ring, x: Endpoint, n: nat, m: nat)
    requires n <= m
    ensures GrewFor(Placed(hash, ring, x, n), Placed(hash, ring, x, m), x)
  {
    if n < m {
      PlacingMoreGrows(hash, ring, x, n, m - 1);
    }
  }

  lemma {:induction false} PlacingKeepsGrown(hash: string -> U32, small: Ring, big: Ring, x: Endpoint, e: Endpoint, n: nat)
    requires GrewFor(small, big, x)
    ensures GrewFor(Placed(hash, small, e, n), Placed(hash, big, e, n), x)
  {
    if n > 0 {
      PlacingKeepsGrown(hash, small, big, x, e, n - 1);
    }
  }

  lemma {:induction false} LaterSlotsKeepGrown(hash: string -> U32, before: seq<Slot>, before': seq<Slot>, x: Endpoint, after: seq<Slot>)
    requires GrewFor(RingOf(hash, before), RingOf(hash, before'), x)
    ensures GrewFor(RingOf(hash, before + after), RingOf(hash, before' + after), x)
  {
    if after == [] {
      assert before + after == before && before' + after == before';
    } else {
      var init, last := after[..|after| - 1], after[|after| - 1];
      LaterSlotsKeepGrown(hash, before, before', x, init);
      assert before + after == before + init + [last] && before' + after == before' + init + [last];
      RingOfOneMore(hash, before + init, last);
      RingOfOneMore(hash, before' + init, last);
      PlacingKeepsGrown(hash, RingOf(hash, before + init), RingOf(hash, before' + init), x, last.endpoint, last.weight * POINTS_PER_WEIGHT);
    }
  }

  /** When the others are visited in the same order, inserting an endpoint anywhere among them moves keys only
      to it; read backwards, removing it moves only the keys it had. Points may collide. */
  lemma InsertingMovesKeysOnlyToNewcomer(hash: string -> U32, before: seq<Slot>, newcomer: Slot, after: seq<Slot>, h: U32)
    ensures var small, big := RingOf(hash, before + after), RingOf(hash, before + [newcomer] + after);
            Choice(big, h) == Choice(small, h) || Choice(big, h) == Some(newcomer.endpoint)
  {
    assert (before + [newcomer])[..|before|] == before;
    PlacingMoreGrows(hash, RingOf(hash, before), newcomer.endpoint, 0, newcomer.weight * POINTS_PER_WEIGHT);
    LaterSlotsKeepGrown(hash, before, before + [newcomer], newcomer.endpoint, after);
    ChoiceMovesOnlyTo(RingOf(hash, before + after), RingOf(hash, before + [newcomer] + after), newcomer.endpoint, h);
  }

  /** In the same order of the visit, raising a weight moves keys only to the endpoint whose weight it is. */
  lemma RaisingWeightMovesKeysOnlyToIt(hash: string -> U32, before: seq<Slot>, e: Endpoint, low: U32, high: U32, after: seq<Slot>, h: U32)
    requires low <= high
    ensures var small, big := RingOf(hash, before + [Slot(e, low)] + after), RingOf(hash, before + [Slot(e, high)] + after);
            Choice(big, h) == Choice(small, h) || Choice(big, h) == Some(e)
  {
    assert (before + [Slot(e, low)])[..|before|] == before && (before + [Slot(e, high)])[..|before|] == before;
    PlacingMoreGrows(hash, RingOf(hash, before), e, low * POINTS_PER_WEIGHT, high * POINTS_PER_WEIGHT);
    LaterSlotsKeepGrown(hash, before + [Slot(e, low)], before + [Slot(e, high)], e, after);
    ChoiceMovesOnlyTo(RingOf(hash, before + [Slot(e, low)] + after), RingOf(hash, before + [Slot(e, high)] + after), e, h);
  }

  // ---------- the order of the visit ----------

  /** Point `p` is one of the slot's. */
  ghost predicate Has(hash: string -> U32, slot: Slot, p: int) {
    exists i: nat :: i < slot.weight * POINTS_PER_WEIGHT && Point(hash, slot.endpoint, i) == p
  }

  /** The text that is hashed for the `i`-th point. */
  function PointText(e: Endpoint, i: nat): string {
    e.ip + "#" + e.pod + "#" + Itoa(e.port) + Itoa(i)
  }

  lemma PointIsHash(hash: string -> U32, e: Endpoint, i: nat)
    ensures Point(hash, e, i) == hash(PointText(e, i))
  {
    assert ToText(e) == e.ip + "#" + e.pod + "#" + Itoa(e.port);
  }

  /** A slot has the hashes of its endpoint's text followed by a number, eight for each unit of weight. */
  lemma HasIff(hash: string -> U32, slot: Slot, p: int)
    ensures Has(hash, slot, p) <==> exists i: nat :: i < slot.weight * 8 && hash(PointText(slot.endpoint, i)) == p
  {
    forall i: nat ensures Point(hash, slot.endpoint, i) == hash(PointText(slot.endpoint, i)) {
      PointIsHash(hash, slot.endpoint, i);
    }
  }

  /** No point belongs to two endpoints. */
  ghost predicate CollisionFree(hash: string -> U32, slots: set<Slot>) {
    forall a, b, p :: a in slots && b in slots && Has(hash, a, p) && Has(hash, b, p) ==> a.endpoint == b.endpoint
  }

  lemma {:induction false} PlacedPoints(hash: string -> U32, ring: Ring, e: Endpoint, n: nat, p: int)
    ensures p in Placed(hash, ring, e, n) <==> p in ring || exists i: nat :: i < n && Point(hash, e, i) == p
    ensures p in Placed(hash, ring, e, n) ==>
              Placed(hash, ring, e, n)[p] == if exists i: nat :: i < n && Point(hash, e, i) == p then e else ring[p]
  {
    if n > 0 {
      PlacedPoints(hash, ring, e, n - 1, p);
    }
  }

  /** The last slot visited that has a point owns it. */
  lemma {:induction false} RingPoints(hash: string -> U32, slots: seq<Slot>, p: int)
    ensures p in RingOf(hash, slots) <==> exists s :: s in slots && Has(hash, s, p)
    ensures p in RingOf(hash, slots) ==>
              exists k :: 0 <= k < |slots| && Has(hash, slots[k], p) && RingOf(hash, slots)[p] == slots[k].endpoint
                          && forall j :: k < j < |slots| ==> !Has(hash, slots[j], p)
  {
    if slots == [] {
    } else {
      var init, last := slots[..|slots| - 1], slots[|slots| - 1];
      assert slots == init + [last];
      RingPoints(hash, init, p);
      PlacedPoints(hash, RingOf(hash, init), last.endpoint, last.weight * POINTS_PER_WEIGHT, p);
      if !Has(hash, last, p) && p in RingOf(hash, init) {
        var k :| 0 <= k < |init| && Has(hash, init[k], p) && RingOf(hash, init)[p] == init[k].endpoint
                 && forall j :: k < j < |init| ==> !Has(hash, init[j], p);
        assert slots[k] == init[k] && slots[k] in slots;
        assert forall j :: k < j < |slots| ==> !Has(hash, slots[j], p);
      } else if Has(hash, last, p) {
        assert last in slots && slots[|slots| - 1] == last;
      }
    }
  }

  lemma SameRingWithoutCollisions(hash: string -> U32, slots: seq<Slot>, slots': seq<Slot>)
    requires SetOf(slots) == SetOf(slots') && CollisionFree(hash, SetOf(slots))
    ensures RingOf(hash, slots) == RingOf(hash, slots')
  {
    forall p ensures p in RingOf(hash, slots) <==> p in RingOf(hash, slots')
    {
      RingPoints(hash, slots, p);
      RingPoints(hash, slots', p);
      assert forall s :: s in slots <==> s in SetOf(slots);
      assert forall s :: s in slots' <==> s in SetOf(slots');
    }
    forall p | p in RingOf(hash, slots) ensures RingOf(hash, slots)[p] == RingOf(hash, slots')[p] {
      RingPoints(hash, slots, p);
      RingPoints(hash, slots', p);
      var k :| 0 <= k < |slots| && Has(hash, slots[k], p) && RingOf(hash, slots)[p] == slots[k].endpoint;
      var k' :| 0 <= k' < |slots'| && Has(hash, slots'[k'], p) && RingOf(hash, slots')[p] == slots'[k'].endpoint;
      assert slots[k] in SetOf(slots) && slots'[k'] in SetOf(slots');
    }
  }

  lemma LastVisitedOwns(hash: string -> U32, slots: seq<Slot>, last: Slot, p: int)
    requires Has(hash, last, p)
    ensures p in RingOf(hash, slots + [last]) && RingOf(hash, slots + [last])[p] == last.endpoint
  {
    var all := slots + [last];
    RingPoints(hash, all, p);
    assert all[|all| - 1] == last && last in all;
    var k :| 0 <= k < |all| && Has(hash, all[k], p) && RingOf(hash, all)[p] == all[k].endpoint
             && forall j :: k < j < |all| ==> !Has(hash, all[j], p);
  }

  ghost predicate Visits(slots: seq<Slot>, all: set<Slot>) {
    SetOf(slots) == all && Distinct(slots)
  }

  lemma {:induction false} SomeVisit(all: set<Slot>) returns (slots: seq<Slot>)
    ensures Visits(slots, all)
    decreases all
  {
    if all == {} {
      slots := [];
    } else {
      var x :| x in all;
      var rest := SomeVisit(all - {x});
      slots := rest + [x];
      assert SetOf(slots) == SetOf(rest) + {x};
    }
  }

  lemma SomeVisitEndingWith(all: set<Slot>, last: Slot) returns (init: seq<Slot>)
    requires last in all
    ensures Visits(init + [last], all)
  {
    init := SomeVisit(all - {last});
    assert SetOf(init + [last]) == SetOf(init) + {last};
  }

  ghost predicate SameRingInEveryOrder(hash: string -> U32, all: set<Slot>) {
    forall s, s' :: Visits(s, all) && Visits(s', all) ==> RingOf(hash, s) == RingOf(hash, s')
  }

  lemma CollisionMakesOrderMatter(hash: string -> U32, all: set<Slot>, a: Slot, b: Slot, p: int)
    requires a in all && b in all && Has(hash, a, p) && Has(hash, b, p) && a.endpoint != b.endpoint
    ensures !SameRingInEveryOrder(hash, all)
  {
    var s := SomeVisitEndingWith(all, a);
    var s' := SomeVisitEndingWith(all, b);
    LastVisitedOwns(hash, s, a, p);
    LastVisitedOwns(hash, s', b, p);
    assert RingOf(hash, s + [a])[p] != RingOf(hash, s' + [b])[p];
  }

  /** The ring, and so every choice, is the same whatever order the map is visited in, exactly when no
      point belongs to two endpoints. */
  lemma OrderIndependentIff(hash: string -> U32, all: set<Slot>)
    ensures SameRingInEveryOrder(hash, all) <==> CollisionFree(hash, all)
  {
    if CollisionFree(hash, all) {
      forall s, s' | Visits(s, all) && Visits(s', all) ensures RingOf(hash, s) == RingOf(hash, s') {
        SameRingWithoutCollisions(hash, s, s');
      }
    } else {
      var a, b, p :| a in all && b in all && Has(hash, a, p) && Has(hash, b, p) && a.endpoint != b.endpoint;
      CollisionMakesOrderMatter(hash, all, a, b, p);
    }
  }

  // ---------- minimal disruption, whatever the orders of the two visits ----------

  /** Between two updates, every key keeps its choice or moves to `x`. */
  ghost predicate OnlyMovesTo(hash: string -> U32, before: seq<Slot>, after: seq<Slot>, x: Endpoint) {
    forall h: U32 :: MovesTo(RingOf(hash, before), RingOf(hash, after), x, h)
  }

  ghost predicate MovesTo(small: Ring, big: Ring, x: Endpoint, h: U32) {
    Choice(big, h) == Choice(small, h) || Choice(big, h) == Some(x)
  }

  ghost predicate OnlyMovesToInEveryOrder(hash: string -> U32, before: set<Slot>, after: set<Slot>, x: Endpoint) {
    forall s, s' :: Visits(s, before) && Visits(s', after) ==> OnlyMovesTo(hash, s, s', x)
  }

  /** The two maps differ at most in the slot of `x`, which has all its old points among the new. */
  ghost predicate GrewAt(hash: string -> U32, before: set<Slot>, after: set<Slot>, x: Endpoint) {
    && (forall a: Slot :: a.endpoint != x ==> (a in before <==> a in after))
    && (forall a, p :: a in before && a.endpoint == x && Has(hash, a, p) ==> XHas(hash, after, x, p))
  }

  ghost predicate XHas(hash: string -> U32, slots: set<Slot>, x: Endpoint, p: int) {
    exists b :: b in slots && b.endpoint == x && Has(hash, b, p)
  }

  lemma OwnerIn(hash: string -> U32, slots: seq<Slot>, all: set<Slot>, p: int) returns (a: Slot)
    requires Visits(slots, all) && p in RingOf(hash, slots)
    ensures a in all && Has(hash, a, p) && RingOf(hash, slots)[p] == a.endpoint
  {
    RingPoints(hash, slots, p);
    var k :| 0 <= k < |slots| && Has(hash, slots[k], p) && RingOf(hash, slots)[p] == slots[k].endpoint;
    a := slots[k];
    assert a in SetOf(slots);
  }

  lemma PointIn(hash: string -> U32, slots: seq<Slot>, all: set<Slot>, a: Slot, p: int)
    requires Visits(slots, all) && a in all && Has(hash, a, p)
    ensures p in RingOf(hash, slots)
  {
    RingPoints(hash, slots, p);
    assert a in slots;
  }

  /** Without collisions among the old points, the ring only grew, whatever the orders of the two visits. */
  lemma CollisionFreeGrows(hash: string -> U32, before: set<Slot>, after: set<Slot>, x: Endpoint, s: seq<Slot>, s': seq<Slot>)
    requires GrewAt(hash, before, after, x) && CollisionFree(hash, before) && Visits(s, before) && Visits(s', after)
    ensures GrewFor(RingOf(hash, s), RingOf(hash, s'), x)
  {
    var small, big := RingOf(hash, s), RingOf(hash, s');
    forall p | p in small ensures p in big {
      var a := OwnerIn(hash, s, before, p);
      if a.endpoint == x {
        assert XHas(hash, after, x, p);
        var b :| b in after && b.endpoint == x && Has(hash, b, p);
        PointIn(hash, s', after, b, p);
      } else {
        PointIn(hash, s', after, a, p);
      }
    }
    forall p | p in big ensures big[p] == x || (p in small && small[p] == big[p]) {
      var b := OwnerIn(hash, s', after, p);
      if b.endpoint != x {
        PointIn(hash, s, before, b, p);
        var a := OwnerIn(hash, s, before, p);
      }
    }
  }

  lemma PointIsChosen(ring: Ring, p: U32)
    requires p in ring
    ensures Choice(ring, p) == Some(ring[p])
  {
  }

  /** The visit that ends with a slot sends each of its points to its endpoint. */
  lemma LastVisitedIsChosen(hash: string -> U32, all: set<Slot>, last: Slot, p: U32) returns (slots: seq<Slot>)
    requires last in all && Has(hash, last, p)
    ensures Visits(slots, all) && Choice(RingOf(hash, slots), p) == Some(last.endpoint)
  {
    var init := SomeVisitEndingWith(all, last);
    slots := init + [last];
    LastVisitedOwns(hash, init, last, p);
    PointIsChosen(RingOf(hash, slots), p);
  }

  /** When two endpoints share an old point, some pair of visits moves its key to neither the old choice nor `x`. */
  lemma CollisionMovesElsewhere(hash: string -> U32, before: set<Slot>, after: set<Slot>, x: Endpoint, a: Slot, b: Slot, p: U32)
    requires GrewAt(hash, before, after, x) && a in before && b in before && b.endpoint != x && a.endpoint != b.endpoint
    requires Has(hash, a, p) && Has(hash, b, p)
    ensures !OnlyMovesToInEveryOrder(hash, before, after, x)
  {
    var s := LastVisitedIsChosen(hash, before, a, p);
    var s' := LastVisitedIsChosen(hash, after, b, p);
    assert !MovesTo(RingOf(hash, s), RingOf(hash, s'), x, p);
  }

  /** Whatever the orders in which the map is visited before and after, keys move only to the endpoint that came
      or gained weight, exactly when no point belonged to two endpoints before. */
  lemma OnlyMovesToIff(hash: string -> U32, before: set<Slot>, after: set<Slot>, x: Endpoint)
    requires GrewAt(hash, before, after, x)
    ensures OnlyMovesToInEveryOrder(hash, before, after, x) <==> CollisionFree(hash, before)
  {
    if CollisionFree(hash, before) {
      forall s, s' | Visits(s, before) && Visits(s', after) ensures OnlyMovesTo(hash, s, s', x) {
        CollisionFreeGrows(hash, before, after, x, s, s');
        forall h: U32 ensures MovesTo(RingOf(hash, s), RingOf(hash, s'), x, h) {
          ChoiceMovesOnlyTo(RingOf(hash, s), RingOf(hash, s'), x, h);
        }
      }
    } else {
      var a, b, p :| a in before && b in before && Has(hash, a, p) && Has(hash, b, p) && a.endpoint != b.endpoint;
      if b.endpoint != x {
        CollisionMovesElsewhere(hash, before, after, x, a, b, p);
      } else {
        CollisionMovesElsewhere(hash, before, after, x, b, a, p);
      }
    }
  }

  /** An endpoint comes: keys move only to it, in every order of visits, exactly when the others share no point. */
  lemma NewcomerTakesOnlyItsKeysIff(hash: string -> U32, others: set<Slot>, newcomer: Slot)
    requires forall a :: a in others ==> a.endpoint != newcomer.endpoint
    ensures OnlyMovesToInEveryOrder(hash, others, others + {newcomer}, newcomer.endpoint) <==> CollisionFree(hash, others)
  {
    OnlyMovesToIff(hash, others, others + {newcomer}, newcomer.endpoint);
  }

  /** A weight is raised: keys move only to its endpoint, in every order of visits, exactly when no point had
      two endpoints before. */
  lemma RaisedWeightTakesOnlyItsKeysIff(hash: string -> U32, others: set<Slot>, e: Endpoint, low: U32, high: U32)
    requires low <= high && forall a :: a in others ==> a.endpoint != e
    ensures OnlyMovesToInEveryOrder(hash, others + {Slot(e, low)}, others + {Slot(e, high)}, e) <==>
            CollisionFree(hash, others + {Slot(e, low)})
  {
    var before, after := others + {Slot(e, low)}, others + {Slot(e, high)};
    forall a, p | a in before && a.endpoint == e && Has(hash, a, p) ensures XHas(hash, after, e, p) {
      assert Slot(e, high) in after && Has(hash, Slot(e, high), p);
    }
    OnlyMovesToIff(hash, before, after, e);
  }

  // ---------- the lookup ----------

  /** The choice is the endpoint at the nearest point, going up from the hash and around. */
  lemma ChoiceIsNearest(hash: string -> U32, slots: seq<Slot>, h: U32)
    ensures var ring := RingOf(hash, slots);
            if ring == map[] then Choice(ring, h) == None
            else
              exists p :: p in ring && Choice(ring, h) == Some(ring[p]) && forall q :: q in ring ==> Distance(h, p) <= Distance(h, q)
  {
    var ring := RingOf(hash, slots);
    if ring != map[] {
      forall q | q in ring ensures 0 <= q < TWO_TO_THE_32 {
        RingPoints(hash, slots, q);
      }
      var p := if Ceiling(ring, h).Some? then Ceiling(ring, h).value else Min(ring).value;
      assert p in ring && forall q :: q in ring ==> Distance(h, p) <= Distance(h, q);
    }
  }
}
