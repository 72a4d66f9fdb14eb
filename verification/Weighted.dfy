/**
 Selection by weight: every endpoint owns an interval of positions as long as its weight, found again
 through the ordered map of interval starts. A Go map is visited in an arbitrary order, so every
 `Update` takes the order of the visit as a parameter.
 */
module Weighted {
  import opened Base
  import opened Endpoints
  import opened TreeMaps

  datatype Slot = Slot(endpoint: Endpoint, weight: U32)

  /** An endpoint without a weight counts once. */
  function WeightOf(weight: Option<U32>): U32 {
    match weight
    case None => 1
    case Some(w) => w
  }

  ghost predicate VisitOrder<V>(attrs: map<Endpoint, V>, order: seq<Endpoint>) {
    Distinct(order) && SetOf(order) == attrs.Keys
  }

  function Slots(attrs: map<Endpoint, Option<U32>>, order: seq<Endpoint>): seq<Slot>
    requires forall e :: e in order ==> e in attrs
  {
    seq(|order|, i requires 0 <= i < |order| => Slot(order[i], WeightOf(attrs[order[i]])))
  }

  function Total(slots: seq<Slot>): nat {
    if slots == [] then 0 else Total(slots[..|slots| - 1]) + slots[|slots| - 1].weight
  }

  /** The total as kept by a strategy: cut down to 32 bits, or not. */
  function Kept(total: nat, wide: bool): nat {
    if wide then total else ToU32(total)
  }

  /** The map of interval starts, an earlier entry giving way to a later one with the same start. */
  function Stages(slots: seq<Slot>, wide: bool): map<int, Endpoint> {
    if slots == [] then map[]
    else
      var init := slots[..|slots| - 1];
      Stages(init, wide)[Kept(Total(init), wide) := slots[|slots| - 1].endpoint]
  }

  /** Whose interval a position lies in. */
  function Owner(slots: seq<Slot>, r: nat): Endpoint
    requires r < Total(slots)
  {
    var init := slots[..|slots| - 1];
    if r < Total(init) then Owner(init, r) else slots[|slots| - 1].endpoint
  }

  function WeightIn(slots: seq<Slot>, e: Endpoint): nat {
    if slots == [] then 0
    else WeightIn(slots[..|slots| - 1], e) + if slots[|slots| - 1].endpoint == e then slots[|slots| - 1].weight else 0
  }

  /** `Floor`, then the endpoint stored there. */
  function Choose(slots: seq<Slot>, counter: nat, wide: bool): Option<Endpoint> {
    var total := Kept(Total(slots), wide);
    if total == 0 then None
    else
      var p := Floor(Stages(slots, wide), counter % total);
      if p.None? then None else Some(Stages(slots, wide)[p.value])
  }

  lemma {:induction false} StagesStartAtZero(slots: seq<Slot>, wide: bool)
    requires slots != []
    ensures 0 in Stages(slots, wide)
  {
    if |slots| > 1 {
      StagesStartAtZero(slots[..|slots| - 1], wide);
    } else {
      assert slots[..0] == [];
    }
  }

  /** Even when the total wraps around, a lookup finds something unless the total reads as zero. */
  lemma LookupNeverMisses(slots: seq<Slot>, counter: nat, wide: bool)
    ensures Choose(slots, counter, wide).None? <==> Kept(Total(slots), wide) == 0
  {
    if Kept(Total(slots), wide) != 0 {
      StagesStartAtZero(slots, wide);
    }
  }

  lemma {:induction false} StagesUpToTotal(slots: seq<Slot>, wide: bool)
    requires wide || Total(slots) < TWO_TO_THE_32
    ensures forall p :: p in Stages(slots, wide) ==> 0 <= p <= Total(slots)
  {
    if slots == [] {
    } else {
      StagesUpToTotal(slots[..|slots| - 1], wide);
    }
  }

  /** The ordered map answers every position with the owner of its interval. */
  lemma {:induction false} FloorFindsOwner(slots: seq<Slot>, r: nat, wide: bool)
    requires r < Total(slots) && (wide || Total(slots) < TWO_TO_THE_32)
    ensures var p := Floor(Stages(slots, wide), r);
            p.Some? && Stages(slots, wide)[p.value] == Owner(slots, r)
  {
    var init := slots[..|slots| - 1];
    var small, big := Stages(init, wide), Stages(slots, wide);
    var p := Floor(big, r);
    StagesStartAtZero(slots, wide);
    StagesUpToTotal(init, wide);
    if r < Total(init) {
      FloorFindsOwner(init, r, wide);
      var q := Floor(small, r).value;
      assert q in big && p.value in small;
      assert p.value == q;
    } else {
      assert Total(init) in big;
      assert p.value == Total(init);
    }
  }

  lemma ChooseIsOwner(slots: seq<Slot>, counter: nat, wide: bool)
    requires 0 < Total(slots) && (wide || Total(slots) < TWO_TO_THE_32)
    ensures Choose(slots, counter, wide) == Some(Owner(slots, counter % Total(slots)))
  {
    FloorFindsOwner(slots, counter % Total(slots), wide);
  }

  // ---------- how often an endpoint is chosen ----------

  /** The number of positions below `n` that `e` owns. */
  function OwnedBelow(slots: seq<Slot>, e: Endpoint, n: nat): nat
    requires n <= Total(slots)
  {
    if n == 0 then 0 else OwnedBelow(slots, e, n - 1) + if Owner(slots, n - 1) == e then 1 else 0
  }

  lemma {:induction false} OwnedBelowSteps(slots: seq<Slot>, e: Endpoint, n: nat)
    requires slots != [] && n <= Total(slots)
    ensures var init, last := slots[..|slots| - 1], slots[|slots| - 1];
            OwnedBelow(slots, e, n) ==
            if n <= Total(init) then OwnedBelow(init, e, n)
            else OwnedBelow(init, e, Total(init)) + if last.endpoint == e then n - Total(init) else 0
  {
    if n > 0 {
      OwnedBelowSteps(slots, e, n - 1);
    }
  }

  /** An endpoint owns exactly as many positions as it has weight. */
  lemma {:induction false} MassIsWeight(slots: seq<Slot>, e: Endpoint)
    ensures OwnedBelow(slots, e, Total(slots)) == WeightIn(slots, e)
  {
    if slots == [] {
    } else {
      MassIsWeight(slots[..|slots| - 1], e);
      OwnedBelowSteps(slots, e, Total(slots));
    }
  }

  /** In a visit of distinct endpoints the weight of each is its own. */
  lemma {:induction false} WeightInVisit(attrs: map<Endpoint, Option<U32>>, order: seq<Endpoint>, e: Endpoint)
    requires Distinct(order) && forall x :: x in order ==> x in attrs
    ensures WeightIn(Slots(attrs, order), e) == if e in order then (if attrs[e].None? then 1 else attrs[e].value) else 0
  {
    if order == [] {
    } else {
      var init := order[..|order| - 1];
      assert order == init + [order[|order| - 1]];
      WeightInVisit(attrs, init, e);
      assert Slots(attrs, order)[..|order| - 1] == Slots(attrs, init);
    }
  }

  /** Of the counters `c + 1` to `c + n`, how many lead to `e`. */
  function Window(slots: seq<Slot>, e: Endpoint, c: nat, n: nat): nat
    requires Total(slots) > 0
  {
    if n == 0 then 0
    else Window(slots, e, c, n - 1) + if Owner(slots, (c + n) % Total(slots)) == e then 1 else 0
  }

  lemma {:induction false} WindowFront(slots: seq<Slot>, e: Endpoint, c: nat, n: nat)
    requires Total(slots) > 0
    ensures Window(slots, e, c, n + 1) ==
            (if Owner(slots, (c + 1) % Total(slots)) == e then 1 else 0) + Window(slots, e, c + 1, n)
  {
    if n > 0 {
      WindowFront(slots, e, c, n - 1);
    }
  }

  lemma {:induction false} FullWindowsAreEqual(slots: seq<Slot>, e: Endpoint, c: nat)
    requires Total(slots) > 0
    ensures Window(slots, e, c, Total(slots)) == Window(slots, e, 0, Total(slots))
  {
    if c > 0 {
      var t := Total(slots);
      FullWindowsAreEqual(slots, e, c - 1);
      WindowFront(slots, e, c - 1, t - 1);
      NextRound(c, t);
    }
  }

  lemma {:induction false} WindowFromEnd(slots: seq<Slot>, e: Endpoint, n: nat)
    requires n <= Total(slots) && Total(slots) > 0
    ensures Window(slots, e, Total(slots) - 1, n) == OwnedBelow(slots, e, n)
  {
    if n > 0 {
      WindowFromEnd(slots, e, n - 1);
      NextRound(n - 1, Total(slots));
      SmallRemainder(n - 1, Total(slots));
      assert Total(slots) - 1 + n == n - 1 + Total(slots);
    }
  }

  /** A full round from any starting counter reaches each endpoint as often as it has weight. */
  lemma FullRoundIsFair(slots: seq<Slot>, e: Endpoint, c: nat)
    requires Total(slots) > 0
    ensures Window(slots, e, c, Total(slots)) == WeightIn(slots, e)
  {
    FullWindowsAreEqual(slots, e, c);
    FullWindowsAreEqual(slots, e, Total(slots) - 1);
    WindowFromEnd(slots, e, Total(slots));
    MassIsWeight(slots, e);
  }

  /** The results of `n` consecutive `Select` calls, starting after the counter was at `c`. */
  function Selections(slots: seq<Slot>, c: nat, n: nat): seq<Option<Endpoint>> {
    if n == 0 then [] else Selections(slots, c, n - 1) + [Choose(slots, ToU32(c + n), false)]
  }

  lemma {:induction false} SelectionsCount(slots: seq<Slot>, c: nat, n: nat, e: Endpoint)
    requires 0 < Total(slots) < TWO_TO_THE_32 && c + n < TWO_TO_THE_32
    ensures multiset(Selections(slots, c, n))[Some(e)] == Window(slots, e, c, n)
    ensures None !in Selections(slots, c, n)
  {
    if n > 0 {
      SelectionsCount(slots, c, n - 1, e);
      SmallRemainder(c + n, TWO_TO_THE_32);
      ChooseIsOwner(slots, c + n, false);
      CountOfAppend(Selections(slots, c, n - 1), Choose(slots, c + n, false), Some(e));
    }
  }

  lemma CountOfAppend<T>(s: seq<T>, x: T, y: T)
    ensures multiset(s + [x])[y] == multiset(s)[y] + if x == y then 1 else 0
  {
  }

  /** Weighted round robin is exactly fair: as many consecutive selections as there is weight, with no
      counter wrap, return each endpoint exactly its weight times and never fail. */
  lemma WeightedRoundRobinIsFair(attrs: map<Endpoint, Option<U32>>, order: seq<Endpoint>, c: U32, e: Endpoint)
    requires VisitOrder(attrs, order)
    requires var t := Total(Slots(attrs, order)); 0 < t && c + t < TWO_TO_THE_32
    ensures var slots := Slots(attrs, order);
            && multiset(Selections(slots, c, Total(slots)))[Some(e)] == (if e in attrs then (if attrs[e].None? then 1 else attrs[e].value) else 0)
            && None !in Selections(slots, c, Total(slots))
  {
    var slots := Slots(attrs, order);
    SelectionsCount(slots, c, Total(slots), e);
    FullRoundIsFair(slots, e, c);
    WeightInVisit(attrs, order, e);
    assert e in order <==> e in attrs;
  }

  /** Weighted random has exact mass: among the residues below the total weight, an endpoint is the
      choice for exactly its weight. */
  lemma WeightedRandomHasExactMass(attrs: map<Endpoint, Option<U32>>, order: seq<Endpoint>, e: Endpoint)
    requires VisitOrder(attrs, order)
    ensures var slots := Slots(attrs, order);
            && OwnedBelow(slots, e, Total(slots)) == (if e in attrs then (if attrs[e].None? then 1 else attrs[e].value) else 0)
            && forall rnd: nat :: Total(slots) > 0 ==> Choose(slots, rnd, true) == Some(Owner(slots, rnd % Total(slots)))
  {
    var slots := Slots(attrs, order);
    MassIsWeight(slots, e);
    WeightInVisit(attrs, order, e);
    assert e in order <==> e in attrs;
    forall rnd: nat | Total(slots) > 0 ensures Choose(slots, rnd, true) == Some(Owner(slots, rnd % Total(slots))) {
      ChooseIsOwner(slots, rnd, true);
    }
  }

  // ---------- the strategies ----------

  lemma OneMoreSlot(slots: seq<Slot>, slot: Slot, wide: bool)
    ensures Total(slots + [slot]) == Total(slots) + slot.weight
    ensures Kept(Total(slots + [slot]), wide) == Kept(Kept(Total(slots), wide) + slot.weight, wide)
    ensures Stages(slots + [slot], wide) == Stages(slots, wide)[Kept(Total(slots), wide) := slot.endpoint]
  {
    assert (slots + [slot])[..|slots|] == slots;
    ToU32OfSum(Total(slots), slot.weight);
  }

  lemma NextSlot(attrs: map<Endpoint, Option<U32>>, order: seq<Endpoint>, i: nat)
    requires VisitOrder(attrs, order) && i < |order|
    ensures order[i] in attrs && forall e :: e in order ==> e in attrs
    ensures Slots(attrs, order)[..i + 1] == Slots(attrs, order)[..i] + [Slot(order[i], WeightOf(attrs[order[i]]))]
  {
    assert forall e :: e in order ==> e in SetOf(order);
  }

  class WeightedRoundRobin {
    var weightStageToEndpoint: map<int, Endpoint>
    var totalWeight: U32
    var lastIdx: U32
    ghost var slots: seq<Slot>

    ghost predicate Valid()
      reads this
    {
      weightStageToEndpoint == Stages(slots, false) && totalWeight == ToU32(Total(slots))
    }

    constructor ()
      ensures Valid() && slots == [] && lastIdx == 0
    {
      weightStageToEndpoint, totalWeight, lastIdx, slots := map[], 0, 0, [];
    }

    method Update(attrs: map<Endpoint, Option<U32>>, order: seq<Endpoint>)
      requires VisitOrder(attrs, order)
      modifies this
      ensures Valid() && slots == Slots(attrs, order) && lastIdx == old(lastIdx)
    {
      weightStageToEndpoint, totalWeight, slots := map[], 0, [];
      for i := 0 to |order|
        invariant Valid() && slots == Slots(attrs, order)[..i] && lastIdx == old(lastIdx)
      {
        var e := order[i];
        NextSlot(attrs, order, i);
        var weight: U32 := 1;
        if attrs[e].Some? {
          weight := attrs[e].value;
        }
        OneMoreSlot(slots, Slot(e, weight), false);
        weightStageToEndpoint := weightStageToEndpoint[totalWeight := e];
        totalWeight := ToU32(totalWeight + weight);
        slots := slots + [Slot(e, weight)];
      }
    }

    method Select() returns (r: Option<Endpoint>)
      requires Valid()
      modifies this`lastIdx
      ensures r == Choose(slots, lastIdx, false)
      ensures lastIdx == if totalWeight == 0 then old(lastIdx) else ToU32(old(lastIdx) + 1)
    {
      if totalWeight == 0 {
        return None;
      }
      lastIdx := ToU32(lastIdx + 1);
      LookupNeverMisses(slots, lastIdx, false);
      var stage := Floor(weightStageToEndpoint, lastIdx % totalWeight);
      r := Some(weightStageToEndpoint[stage.value]);
    }

    /** Consecutive selections with no update between them. */
    method SelectTimes(n: nat) returns (rs: seq<Option<Endpoint>>)
      requires Valid()
      modifies this`lastIdx
      ensures rs == Selections(slots, old(lastIdx), n)
    {
      rs := [];
      for i := 0 to n
        invariant rs == Selections(slots, old(lastIdx), i)
        invariant lastIdx == if totalWeight == 0 then old(lastIdx) else ToU32(old(lastIdx) + i)
      {
        ToU32OfSum(old(lastIdx) + i, 1);
        var r := Select();
        rs := rs + [r];
      }
    }

    /** A full round after an update: every endpoint exactly its weight times. */
    method FairRound(attrs: map<Endpoint, Option<U32>>, order: seq<Endpoint>) returns (rs: seq<Option<Endpoint>>)
      requires VisitOrder(attrs, order)
      requires var t := Total(Slots(attrs, order)); 0 < t && lastIdx + t < TWO_TO_THE_32
      modifies this
      ensures None !in rs && forall e :: multiset(rs)[Some(e)] == if e in attrs then (if attrs[e].None? then 1 else attrs[e].value) else 0
    {
      Update(attrs, order);
      ghost var c := lastIdx;
      rs := SelectTimes(totalWeight);
      SmallRemainder(Total(slots), TWO_TO_THE_32);
      WeightedRoundRobinIsFair(attrs, order, c, order[0]);
      forall e ensures multiset(rs)[Some(e)] == if e in attrs then (if attrs[e].None? then 1 else attrs[e].value) else 0 {
        WeightedRoundRobinIsFair(attrs, order, c, e);
      }
    }
  }

  class WeightedRandom {
    var weightStageToEndpoint: map<int, Endpoint>
    var totalWeight: nat
    ghost var slots: seq<Slot>

    ghost predicate Valid()
      reads this
    {
      weightStageToEndpoint == Stages(slots, true) && totalWeight == Total(slots)
    }

    constructor ()
      ensures Valid() && slots == []
    {
      weightStageToEndpoint, totalWeight, slots := map[], 0, [];
    }

    method Update(attrs: map<Endpoint, Option<U32>>, order: seq<Endpoint>)
      requires VisitOrder(attrs, order)
      modifies this
      ensures Valid() && slots == Slots(attrs, order)
    {
      weightStageToEndpoint, totalWeight, slots := map[], 0, [];
      for i := 0 to |order|
        invariant Valid() && slots == Slots(attrs, order)[..i]
      {
        var e := order[i];
        NextSlot(attrs, order, i);
        var weight: U32 := 1;
        if attrs[e].Some? {
          weight := attrs[e].value;
        }
        OneMoreSlot(slots, Slot(e, weight), true);
        weightStageToEndpoint := weightStageToEndpoint[totalWeight := e];
        totalWeight := totalWeight + weight;
        slots := slots + [Slot(e, weight)];
      }
    }

    /** `random` is any non-negative number `rand.Int` may return. */
    method Select(random: nat) returns (r: Option<Endpoint>)
      requires Valid()
      ensures r == Choose(slots, random, true)
    {
      if totalWeight == 0 {
        return None;
      }
      var stage := Floor(weightStageToEndpoint, random % totalWeight);
      if stage.None? {
        return None;
      }
      r := Some(weightStageToEndpoint[stage.value]);
    }
  }

  function InTurn(endpoints: seq<Endpoint>, counter: U32): Option<Endpoint> {
    var size := ToU32(|endpoints|);
    if size == 0 then None else Some(endpoints[counter % size])
  }

  class RoundRobin {
    var endpoints: seq<Endpoint>
    var lastIdx: U32

    constructor ()
      ensures endpoints == [] && lastIdx == 0
    {
      endpoints, lastIdx := [], 0;
    }

    method Update<V>(attrs: map<Endpoint, V>, order: seq<Endpoint>)
      requires VisitOrder(attrs, order)
      modifies this
      ensures endpoints == order && lastIdx == old(lastIdx)
    {
      endpoints := [];
      for i := 0 to |order|
        invariant endpoints == order[..i] && lastIdx == old(lastIdx)
      {
        endpoints := endpoints + [order[i]];
      }
    }

    method Select() returns (r: Option<Endpoint>)
      modifies this`lastIdx
      ensures r == InTurn(endpoints, lastIdx)
      ensures lastIdx == if r.None? then old(lastIdx) else ToU32(old(lastIdx) + 1)
    {
      var size := ToU32(|endpoints|);
      if size == 0 {
        return None;
      }
      lastIdx := ToU32(lastIdx + 1);
      r := Some(endpoints[lastIdx % size]);
    }

    /** Consecutive selections with no update between them. */
    method SelectTimes(n: nat) returns (rs: seq<Option<Endpoint>>)
      modifies this`lastIdx
      ensures rs == Turns(endpoints, old(lastIdx), n)
    {
      rs := [];
      for i := 0 to n
        invariant rs == Turns(endpoints, old(lastIdx), i)
        invariant lastIdx == if ToU32(|endpoints|) == 0 then old(lastIdx) else ToU32(old(lastIdx) + i)
      {
        ToU32OfSum(old(lastIdx) + i, 1);
        var r := Select();
        rs := rs + [r];
      }
    }
  }

  // ---------- round robin is the unit-weight case ----------

  function UnitSlots(order: seq<Endpoint>): seq<Slot> {
    seq(|order|, i requires 0 <= i < |order| => Slot(order[i], 1))
  }

  lemma {:induction false} UnitOwner(order: seq<Endpoint>)
    ensures Total(UnitSlots(order)) == |order|
    ensures forall r :: 0 <= r < |order| ==> Owner(UnitSlots(order), r) == order[r]
  {
    if order == [] {
    } else {
      var init := order[..|order| - 1];
      UnitOwner(init);
      assert UnitSlots(order)[..|order| - 1] == UnitSlots(init);
    }
  }

  lemma InTurnIsUnitWeight(order: seq<Endpoint>, counter: U32)
    requires |order| < TWO_TO_THE_32
    ensures InTurn(order, counter) == Choose(UnitSlots(order), counter, false)
  {
    UnitOwner(order);
    SmallRemainder(|order|, TWO_TO_THE_32);
    if order != [] {
      ChooseIsOwner(UnitSlots(order), counter, false);
    }
  }

  /** The results of `n` consecutive round-robin selections. */
  function Turns(order: seq<Endpoint>, c: nat, n: nat): seq<Option<Endpoint>> {
    if n == 0 then [] else Turns(order, c, n - 1) + [InTurn(order, ToU32(c + n))]
  }

  lemma {:induction false} TurnsAreSelections(order: seq<Endpoint>, c: nat, n: nat)
    requires |order| < TWO_TO_THE_32
    ensures Turns(order, c, n) == Selections(UnitSlots(order), c, n)
  {
    if n > 0 {
      TurnsAreSelections(order, c, n - 1);
      InTurnIsUnitWeight(order, ToU32(c + n));
    }
  }

  /** Round robin visits every endpoint exactly once in as many selections as there are endpoints. */
  lemma RoundRobinVisitsEachOnce(order: seq<Endpoint>, c: U32, e: Endpoint)
    requires Distinct(order) && 0 < |order| && c + |order| < TWO_TO_THE_32
    ensures multiset(Turns(order, c, |order|))[Some(e)] == if e in order then 1 else 0
  {
    TurnsAreSelections(order, c, |order|);
    var attrs := map x | x in order :: None;
    assert UnitSlots(order) == Slots(attrs, order);
    UnitOwner(order);
    assert SetOf(order) == attrs.Keys;
    WeightedRoundRobinIsFair(attrs, order, c, e);
  }
}
