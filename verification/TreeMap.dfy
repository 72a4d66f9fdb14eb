/** The ordered-map lookups the strategies use; the tree itself is a library's, so a `map` stands for it. */
module TreeMaps {
  import opened Base

  ghost predicate IsFloor<V>(m: map<int, V>, k: int, p: int) {
    p in m && p <= k && forall q :: q in m && q <= k ==> q <= p
  }

  ghost predicate IsCeiling<V>(m: map<int, V>, k: int, p: int) {
    p in m && p >= k && forall q :: q in m && q >= k ==> q >= p
  }

  lemma {:induction false} GreatestExists(s: set<int>)
    requires |s| > 0
    ensures exists p :: p in s && forall q :: q in s ==> q <= p
  {
    var x := SomeElement(s);
    if s != {x} {
      GreatestExists(s - {x});
      var p :| p in s - {x} && forall q :: q in s - {x} ==> q <= p;
      assert forall q :: q in s ==> q == x || q in s - {x};
      var top := if p < x then x else p;
      assert top in s && forall q :: q in s ==> q <= top;
    }
  }

  lemma {:induction false} LeastExists(s: set<int>)
    requires |s| > 0
    ensures exists p :: p in s && forall q :: q in s ==> q >= p
  {
    var x := SomeElement(s);
    if s != {x} {
      LeastExists(s - {x});
      var p :| p in s - {x} && forall q :: q in s - {x} ==> q >= p;
      assert forall q :: q in s ==> q == x || q in s - {x};
      var bottom := if p < x then p else x;
      assert bottom in s && forall q :: q in s ==> q >= bottom;
    }
  }

  /** The greatest key at or below `k`. */
  function Floor<V>(m: map<int, V>, k: int): (r: Option<int>)
    ensures r.Some? ==> IsFloor(m, k, r.value)
    ensures r.None? ==> forall q :: q in m ==> q > k
  {
    var below := set q | q in m && q <= k;
    assert forall q :: q in m && q <= k ==> q in below;
    if |below| == 0 then None
    else
      GreatestExists(below);
      var p :| p in below && forall q :: q in below ==> q <= p;
      Some(p)
  }

  /** The least key at or above `k`. */
  function Ceiling<V>(m: map<int, V>, k: int): (r: Option<int>)
    ensures r.Some? ==> IsCeiling(m, k, r.value)
    ensures r.None? ==> forall q :: q in m ==> q < k
  {
    var above := set q | q in m && q >= k;
    assert forall q :: q in m && q >= k ==> q in above;
    if |above| == 0 then None
    else
      LeastExists(above);
      var p :| p in above && forall q :: q in above ==> q >= p;
      Some(p)
  }

  /** The least key. */
  function Min<V>(m: map<int, V>): (r: Option<int>)
    ensures r.None? <==> m == map[]
    ensures r.Some? ==> r.value in m && forall q :: q in m ==> q >= r.value
  {
    if |m.Keys| == 0 then None
    else
      LeastExists(m.Keys);
      var p :| p in m.Keys && forall q :: q in m.Keys ==> q >= p;
      Some(p)
  }
}
