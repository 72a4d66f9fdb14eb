/** Shared building blocks: optional values and the unsigned 32-bit integers of the Go source. */
module Base {

  datatype Option<+T> = None | Some(value: T)

  const TWO_TO_THE_31: int := 0x8000_0000
  const TWO_TO_THE_32: int := 0x1_0000_0000
  const TWO_TO_THE_63: int := 0x8000_0000_0000_0000

  /** Go's `uint32`. */
  type U32 = x: int | 0 <= x < TWO_TO_THE_32

  /** Go's conversion `uint32(x)` from any wider integer: keep the low 32 bits. */
  function ToU32(x: int): U32 {
    x % TWO_TO_THE_32
  }

  /** Go's conversion `int32(x)`. */
  function ToInt32(x: int): int {
    (x + TWO_TO_THE_31) % TWO_TO_THE_32 - TWO_TO_THE_31
  }

  lemma SignRoundTrip(v: int)
    requires -TWO_TO_THE_31 <= v < TWO_TO_THE_31
    ensures ToInt32(ToU32(v)) == v
  {
  }

  lemma SmallIsKept(x: int)
    requires -TWO_TO_THE_31 <= x < TWO_TO_THE_31
    ensures ToInt32(x) == x
  {
  }

  lemma KeepsLowBits(x: int)
    ensures ToU32(ToInt32(x)) == ToU32(x)
  {
  }

  ghost predicate Distinct<T>(s: seq<T>) {
    forall i, j :: 0 <= i < j < |s| ==> s[i] != s[j]
  }

  function SetOf<T>(s: seq<T>): set<T> {
    set x | x in s
  }

  lemma {:induction false} SizeOfDistinct<T>(s: seq<T>)
    requires Distinct(s)
    ensures |SetOf(s)| == |s|
  {
    if s == [] {
    } else {
      SizeOfDistinct(s[1..]);
      assert SetOf(s) == {s[0]} + SetOf(s[1..]);
    }
  }

  lemma SomeElement<T>(s: set<T>) returns (x: T)
    requires |s| > 0
    ensures x in s
  {
    x :| x in s;
  }

  lemma AtLeastOnce(d: nat, t: nat)
    requires d >= 1
    ensures d * t >= t
  {
    assert d * t == (d - 1) * t + t;
  }

  lemma QuotientNoLarger(q: int, r: int, q': int, r': int, t: int)
    requires 0 <= r < t && 0 <= r' < t && q * t + r == q' * t + r'
    ensures q <= q'
  {
    assert (q - q') * t == q * t - q' * t;
    if q > q' {
      AtLeastOnce(q - q', t);
    }
  }

  lemma NextRound(x: nat, t: nat)
    requires t > 0
    ensures (x + t) % t == x % t
  {
    var q, q' := x / t, (x + t) / t;
    assert x == q * t + x % t && x + t == q' * t + (x + t) % t;
    assert (q + 1) * t == q * t + t;
    QuotientNoLarger(q + 1, x % t, q', (x + t) % t, t);
    QuotientNoLarger(q', (x + t) % t, q + 1, x % t, t);
  }

  lemma SmallRemainder(x: nat, t: nat)
    requires x < t
    ensures x % t == x
  {
  }

  lemma ToU32OfSum(a: nat, b: nat)
    ensures ToU32(ToU32(a) + b) == ToU32(a + b)
  {
  }
}
