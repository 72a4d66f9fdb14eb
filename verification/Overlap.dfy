/**
 Round robin with many callers: each adds to the shared counter atomically and reads it again in a separate
 step, so that others may add in between. No update comes in between, and the counter does not wrap.
 */
module Overlaps {
  import opened Base
  import opened Endpoints
  import opened Weighted

  /** An add of some caller, or the read of some caller that has added and not yet read. */
  datatype Step = Add | Read

  function Adds(steps: seq<Step>): nat {
    if steps == [] then 0 else Adds(steps[..|steps| - 1]) + if steps[|steps| - 1].Add? then 1 else 0
  }

  function Reads(steps: seq<Step>): nat {
    if steps == [] then 0 else Reads(steps[..|steps| - 1]) + if steps[|steps| - 1].Read? then 1 else 0
  }

  ghost predicate IsRun(steps: seq<Step>) {
    steps == [] || (IsRun(steps[..|steps| - 1]) && Reads(steps) <= Adds(steps))
  }

  /** No caller adds between the add and the read of another. */
  ghost predicate NoOverlap(steps: seq<Step>) {
    steps == [] || (NoOverlap(steps[..|steps| - 1]) && Adds(steps) <= Reads(steps) + 1)
  }

  /** What the callers read, when the counter was at `c` before. */
  function Values(c: nat, steps: seq<Step>): seq<U32> {
    if steps == [] then []
    else
      var init := steps[..|steps| - 1];
      if steps[|steps| - 1].Add? then Values(c, init) else Values(c, init) + [ToU32(c + Adds(init))]
  }

  /** The endpoints the callers select, by the strategies' own choice for a counter value. */
  function Chosen(slots: seq<Slot>, values: seq<U32>): seq<Option<Endpoint>> {
    if values == [] then []
    else Chosen(slots, values[..|values| - 1]) + [Choose(slots, values[|values| - 1], false)]
  }

  function InTurns(order: seq<Endpoint>, values: seq<U32>): seq<Option<Endpoint>> {
    if values == [] then []
    else InTurns(order, values[..|values| - 1]) + [InTurn(order, values[|values| - 1])]
  }

  /** `n` calls, begun and finished, none of which wraps the counter. */
  ghost predicate IsRound(c: nat, steps: seq<Step>, n: nat) {
    IsRun(steps) && Adds(steps) == n && Reads(steps) == n && c + n < TWO_TO_THE_32
  }

  // ---------- calls that do not overlap ----------

  function Consecutive(c: nat, n: nat): seq<U32> {
    if n == 0 then [] else Consecutive(c, n - 1) + [ToU32(c + n)]
  }

  lemma {:induction false} WithoutOverlapConsecutive(c: nat, steps: seq<Step>)
    requires IsRun(steps) && NoOverlap(steps)
    ensures Values(c, steps) == Consecutive(c, Reads(steps))
  {
    if steps != [] {
      var init := steps[..|steps| - 1];
      WithoutOverlapConsecutive(c, init);
      if steps[|steps| - 1].Read? {
        assert Adds(init) == Reads(init) + 1 == Reads(steps);
      }
    }
  }

  lemma {:induction false} ConsecutiveAreSelections(slots: seq<Slot>, c: nat, n: nat)
    ensures Chosen(slots, Consecutive(c, n)) == Selections(slots, c, n)
  {
    if n > 0 {
      ConsecutiveAreSelections(slots, c, n - 1);
      assert Consecutive(c, n)[..|Consecutive(c, n)| - 1] == Consecutive(c, n - 1);
    }
  }

  lemma {:induction false} ConsecutiveAreTurns(order: seq<Endpoint>, c: nat, n: nat)
    ensures InTurns(order, Consecutive(c, n)) == Turns(order, c, n)
  {
    if n > 0 {
      ConsecutiveAreTurns(order, c, n - 1);
      assert Consecutive(c, n)[..|Consecutive(c, n)| - 1] == Consecutive(c, n - 1);
    }
  }

  /** Weighted round robin stays exactly fair with many callers, as long as their calls do not overlap. */
  lemma WithoutOverlapWeightedIsFair(attrs: map<Endpoint, Option<U32>>, order: seq<Endpoint>, c: U32, steps: seq<Step>, e: Endpoint)
    requires VisitOrder(attrs, order) && Total(Slots(attrs, order)) > 0
    requires IsRound(c, steps, Total(Slots(attrs, order))) && NoOverlap(steps)
    ensures multiset(Chosen(Slots(attrs, order), Values(c, steps)))[Some(e)] == if e in attrs then (if attrs[e].None? then 1 else attrs[e].value) else 0
  {
    var slots := Slots(attrs, order);
    WithoutOverlapConsecutive(c, steps);
    ConsecutiveAreSelections(slots, c, Total(slots));
    WeightedRoundRobinIsFair(attrs, order, c, e);
  }

  // ---------- calls that overlap ----------

  /** Calls that overlap leave out some value that has been counted already. */
  lemma {:induction false} OverlapLeavesOut(c: nat, steps: seq<Step>) returns (m: nat)
    requires IsRun(steps) && !NoOverlap(steps) && c + Adds(steps) < TWO_TO_THE_32
    ensures 0 < m < Adds(steps) && c + m !in Values(c, steps)
  {
    var init := steps[..|steps| - 1];
    if NoOverlap(init) {
      WithoutOverlapConsecutive(c, init);
      m := Reads(init) + 1;
      ConsecutiveBelow(c, Reads(init));
    } else {
      m := OverlapLeavesOut(c, init);
    }
  }

  lemma {:induction false} ConsecutiveBelow(c: nat, n: nat)
    requires c + n < TWO_TO_THE_32
    ensures forall v :: v in Consecutive(c, n) <==> c < v <= c + n
  {
    if n > 0 {
      ConsecutiveBelow(c, n - 1);
    }
  }

  lemma {:induction false} ValuesInRange(c: nat, steps: seq<Step>)
    requires IsRun(steps) && c + Adds(steps) < TWO_TO_THE_32
    ensures forall v :: v in Values(c, steps) ==> c < v <= c + Adds(steps)
  {
    if steps != [] {
      ValuesInRange(c, steps[..|steps| - 1]);
    }
  }

  lemma EqualRemaindersAreApart(v: nat, w: nat, n: nat)
    requires n > 0 && v < w && v % n == w % n
    ensures w - v >= n
  {
    var d := w / n - v / n;
    assert w - v == n * d;
    AtLeastOnce(n, d);
  }

  /** In a round, whatever the weights: every value of the round is read, and so every position chosen, if and
      only if no two calls overlap. */
  lemma EveryValueReadIff(c: U32, steps: seq<Step>, n: nat)
    requires IsRound(c, steps, n)
    ensures (forall v :: c < v <= c + n ==> v in Values(c, steps)) <==> NoOverlap(steps)
  {
    if NoOverlap(steps) {
      WithoutOverlapConsecutive(c, steps);
      ConsecutiveBelow(c, n);
    } else {
      var m := OverlapLeavesOut(c, steps);
      assert c < c + m <= c + n;
    }
  }

  /** Different values among `n` consecutive ones have different remainders. */
  lemma RemaindersDiffer(v: nat, w: nat, n: nat)
    requires n > 0 && v != w && v - w < n && w - v < n
    ensures v % n != w % n
  {
    if v % n == w % n {
      EqualRemaindersAreApart(if v < w then v else w, if v < w then w else v, n);
    }
  }

  lemma {:induction false} NotInTurns(order: seq<Endpoint>, values: seq<U32>, k: nat)
    requires Distinct(order) && 0 < |order| < TWO_TO_THE_32 && k < |order|
    requires forall v :: v in values ==> v % |order| != k
    ensures Some(order[k]) !in InTurns(order, values)
  {
    if values != [] {
      var init, last := values[..|values| - 1], values[|values| - 1];
      assert values == init + [last];
      assert forall v :: v in init ==> v in values;
      NotInTurns(order, init, k);
      assert last in values;
      SmallRemainder(|order|, TWO_TO_THE_32);
      assert InTurn(order, last) == Some(order[last % |order|]);
    }
  }

  /** With calls that overlap, some endpoint is not selected in a round. */
  lemma OverlapSkips(order: seq<Endpoint>, c: U32, steps: seq<Step>) returns (e: Endpoint)
    requires Distinct(order) && 0 < |order| && IsRound(c, steps, |order|) && !NoOverlap(steps)
    ensures e in order && Some(e) !in InTurns(order, Values(c, steps))
  {
    var n := |order|;
    var m := OverlapLeavesOut(c, steps);
    ValuesInRange(c, steps);
    var values := Values(c, steps);
    forall v | v in values ensures v % n != (c + m) % n {
      RemaindersDiffer(v, c + m, n);
    }
    NotInTurns(order, values, (c + m) % n);
    e := order[(c + m) % n];
  }

  /** As many calls as there are endpoints select each of them exactly once if and only if no two of the calls
      overlap. */
  lemma RoundIsFairIff(order: seq<Endpoint>, c: U32, steps: seq<Step>)
    requires Distinct(order) && 0 < |order| && IsRound(c, steps, |order|)
    ensures (forall e :: multiset(InTurns(order, Values(c, steps)))[Some(e)] == if e in order then 1 else 0) <==> NoOverlap(steps)
  {
    var results := InTurns(order, Values(c, steps));
    if NoOverlap(steps) {
      WithoutOverlapConsecutive(c, steps);
      ConsecutiveAreTurns(order, c, |order|);
      forall e ensures multiset(results)[Some(e)] == if e in order then 1 else 0 {
        RoundRobinVisitsEachOnce(order, c, e);
      }
    } else {
      var e := OverlapSkips(order, c, steps);
      assert multiset(results)[Some(e)] == 0;
    }
  }

  /** Two callers that add before either reads get one index, and the other is skipped. */
  lemma TwoCallersGetOneIndex(c: nat) returns (steps: seq<Step>)
    requires c + 2 < TWO_TO_THE_32
    ensures IsRound(c, steps, 2) && !NoOverlap(steps) && Values(c, steps) == [c + 2, c + 2]
  {
    var one, two, three := [Add], [Add, Add], [Add, Add, Read];
    steps := [Add, Add, Read, Read];
    assert one[..0] == [] && two[..1] == one && three[..2] == two && steps[..3] == three;
    assert IsRun(one) && IsRun(two) && Values(c, two) == Values(c, one) == [];
    assert IsRun(three) && Values(c, three) == [c + 2];
    assert !NoOverlap(two) && !NoOverlap(three);
  }
}
