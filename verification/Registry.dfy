/**
 The service registry: the endpoints of one service, pod by pod, with their attributes, and the version
 that tells selectors when to look again. Every operation is one atomic step.
 */
module Registries {
  import opened Base
  import opened Endpoints

  datatype AttrInSelector = AttrInSelector(weight: Option<U32>, rps: Option<U32>, deadline: Option<int>)

  datatype Attributes = Attributes(available: bool, inSelector: map<string, AttrInSelector>)

  /** An endpoint's attributes as one selector sees them. */
  datatype Attribute = Attribute(available: bool, inSelector: AttrInSelector)

  const DEFAULT_ATTR := AttrInSelector(Some(1), None, Some(0))
  const NEW_ATTRIBUTES := Attributes(true, map[])

  datatype Registry = Registry(
    endpoints: seq<Endpoint>,
    endpointsSet: set<Endpoint>,
    byPod: map<string, seq<Endpoint>>,
    attrs: map<Endpoint, Attributes>,
    dirty: bool,
    version: nat)

  const EMPTY_REGISTRY := Registry([], {}, map[], map[], false, 0)

  datatype Op =
    | Register(pod: string, list: seq<Endpoint>)
    | Remove(pod: string, rest: seq<Endpoint>)  // `rest` is the order the set is then visited in
    | Hang(pod: string)
    | SetAttr(endpoint: Endpoint, selector: string, attr: AttrInSelector)
    | Observe  // any reader, which first brings the version up to date

  function ListOf(r: Registry, pod: string): seq<Endpoint> {
    if pod in r.byPod then r.byPod[pod] else []
  }

  function Updated(r: Registry): Registry {
    if r.dirty then r.(dirty := false, version := r.version + 1) else r
  }

  function WithAttr(m: Attributes, selector: string, attr: AttrInSelector): Attributes {
    m.(inSelector := m.inSelector[selector := attr])
  }

  /** Fresh attributes for every listed endpoint. */
  function Renewed(attrs: map<Endpoint, Attributes>, list: seq<Endpoint>): map<Endpoint, Attributes> {
    attrs + map e | e in list :: NEW_ATTRIBUTES
  }

  lemma RenewedOneMore(attrs: map<Endpoint, Attributes>, list: seq<Endpoint>, e: Endpoint)
    ensures Renewed(attrs, list + [e]) == Renewed(attrs, list)[e := NEW_ATTRIBUTES]
    ensures SetOf(list + [e]) == SetOf(list) + {e}
  {
  }

  function After(r: Registry, op: Op): Registry {
    match op
    case Register(pod, list) =>
      Updated(Registry(r.endpoints + list, r.endpointsSet + SetOf(list), r.byPod[pod := list],
                       Renewed(r.attrs - SetOf(ListOf(r, pod)), list), true, r.version))
    case Remove(pod, rest) =>
      var gone := SetOf(ListOf(r, pod));
      Updated(Registry(rest, r.endpointsSet - gone, r.byPod - {pod}, r.attrs - gone, true, r.version))
    case Hang(pod) =>
      Updated(r.(attrs := map e | e in r.attrs :: if e in ListOf(r, pod) then r.attrs[e].(available := false) else r.attrs[e],
                 dirty := true))
    case SetAttr(e, selector, attr) =>
      if e !in r.endpointsSet then r
      else r.(attrs := r.attrs[e := WithAttr(if e in r.attrs then r.attrs[e] else NEW_ATTRIBUTES, selector, attr)], dirty := true)
    case Observe => Updated(r)
  }

  function AttributeOf(r: Registry, e: Endpoint, selector: string): Attribute {
    if e in r.attrs then
      Attribute(r.attrs[e].available, if selector in r.attrs[e].inSelector then r.attrs[e].inSelector[selector] else DEFAULT_ATTR)
    else Attribute(false, DEFAULT_ATTR)
  }

  class Service {
    var endpoints: seq<Endpoint>
    var endpointsSet: set<Endpoint>
    var endpointsByPod: map<string, seq<Endpoint>>
    var attrMap: map<Endpoint, Attributes>
    var dirty: bool
    var version: nat

    function State(): Registry
      reads this
    {
      Registry(endpoints, endpointsSet, endpointsByPod, attrMap, dirty, version)
    }

    constructor ()
      ensures State() == EMPTY_REGISTRY
    {
      endpoints, endpointsSet, endpointsByPod, attrMap := [], {}, map[], map[];
      dirty, version := false, 0;
    }

    method Update()
      modifies this
      ensures State() == Updated(old(State()))
      ensures !dirty && version == old(version) + if old(dirty) then 1 else 0
    {
      if !dirty {
        return;
      }
      dirty := false;
      version := version + 1;
    }

    method DropAttributes(list: seq<Endpoint>)
      modifies this`attrMap
      ensures attrMap == old(attrMap) - SetOf(list)
    {
      for i := 0 to |list|
        invariant attrMap == old(attrMap) - SetOf(list[..i])
      {
        assert SetOf(list[..i + 1]) == SetOf(list[..i]) + {list[i]};
        attrMap := attrMap - {list[i]};
      }
      assert list[..|list|] == list;
    }

    method AddEndpoints(list: seq<Endpoint>)
      modifies this`attrMap, this`endpointsSet, this`endpoints
      ensures attrMap == Renewed(old(attrMap), list)
      ensures endpointsSet == old(endpointsSet) + SetOf(list) && endpoints == old(endpoints) + list
    {
      ghost var attrs, all, listed := attrMap, endpointsSet, endpoints;
      for i := 0 to |list|
        invariant attrMap == Renewed(attrs, list[..i])
        invariant endpointsSet == all + SetOf(list[..i]) && endpoints == listed + list[..i]
      {
        RenewedOneMore(attrs, list[..i], list[i]);
        assert list[..i + 1] == list[..i] + [list[i]];
        attrMap := attrMap[list[i] := NEW_ATTRIBUTES];
        endpointsSet := endpointsSet + {list[i]};
        endpoints := endpoints + [list[i]];
      }
      assert list[..|list|] == list;
    }

    method RegisterPod(pod: string, list: seq<Endpoint>)
      modifies this
      ensures State() == After(old(State()), Register(pod, list))
      ensures endpoints == old(endpoints) + list && endpointsSet == old(endpointsSet) + SetOf(list)
      ensures endpointsByPod == old(endpointsByPod)[pod := list]
    {
      if pod in endpointsByPod {
        DropAttributes(endpointsByPod[pod]);
      }
      AddEndpoints(list);
      endpointsByPod := endpointsByPod[pod := list];
      dirty := true;
      Update();
    }

    /** `rest` is the order in which the remaining set happens to be visited. */
    method RemovePod(pod: string, rest: seq<Endpoint>)
      requires Legal(State(), Remove(pod, rest))
      modifies this
      ensures State() == After(old(State()), Remove(pod, rest))
      ensures endpoints == rest && endpointsByPod == old(endpointsByPod) - {pod}
    {
      var list := if pod in endpointsByPod then endpointsByPod[pod] else [];
      DropAttributes(list);
      for i := 0 to |list|
        invariant State() == old(State()).(attrs := old(attrMap) - SetOf(list), endpointsSet := old(endpointsSet) - SetOf(list[..i]))
      {
        assert SetOf(list[..i + 1]) == SetOf(list[..i]) + {list[i]};
        endpointsSet := endpointsSet - {list[i]};
      }
      assert list[..|list|] == list;
      endpoints := [];
      for i := 0 to |rest|
        invariant State() == old(State()).(attrs := old(attrMap) - SetOf(list), endpointsSet := old(endpointsSet) - SetOf(list), endpoints := rest[..i])
      {
        endpoints := endpoints + [rest[i]];
      }
      assert rest[..|rest|] == rest;
      endpointsByPod := endpointsByPod - {pod};
      dirty := true;
      Update();
    }

    method HangPod(pod: string)
      modifies this
      ensures State() == After(old(State()), Hang(pod))
    {
      var list := if pod in endpointsByPod then endpointsByPod[pod] else [];
      for i := 0 to |list|
        invariant attrMap == map e | e in old(attrMap) :: if e in list[..i] then old(attrMap)[e].(available := false) else old(attrMap)[e]
        invariant State() == old(State()).(attrs := attrMap)
      {
        assert list[..i + 1] == list[..i] + [list[i]];
        if list[i] in attrMap {
          attrMap := attrMap[list[i] := attrMap[list[i]].(available := false)];
        }
      }
      assert list[..|list|] == list;
      dirty := true;
      Update();
    }

    method SetAttributeInSelector(e: Endpoint, selector: string, attr: AttrInSelector)
      modifies this
      ensures State() == After(old(State()), SetAttr(e, selector, attr))
    {
      if e !in endpointsSet {
        return;
      }
      var m := if e in attrMap then attrMap[e] else NEW_ATTRIBUTES;
      attrMap := attrMap[e := WithAttr(m, selector, attr)];
      dirty := true;
    }

    method Version() returns (v: nat)
      modifies this
      ensures State() == After(old(State()), Observe) && v == State().version
    {
      if dirty {
        Update();
      }
      v := version;
    }

    method AttributesFor(selector: string) returns (listed: seq<Endpoint>, attrs: seq<Attribute>)
      modifies this
      ensures State() == After(old(State()), Observe)
      ensures listed == State().endpoints && |attrs| == |listed|
      ensures forall i :: 0 <= i < |listed| ==> attrs[i] == AttributeOf(State(), listed[i], selector)
    {
      if dirty {
        Update();
      }
      attrs := [];
      for i := 0 to |endpoints|
        invariant State() == Updated(old(State())) && |attrs| == i
        invariant forall j :: 0 <= j < i ==> attrs[j] == AttributeOf(State(), endpoints[j], selector)
      {
        var e := endpoints[i];
        if e in attrMap {
          var inSelector := if selector in attrMap[e].inSelector then attrMap[e].inSelector[selector] else DEFAULT_ATTR;
          attrs := attrs + [Attribute(attrMap[e].available, inSelector)];
        } else {
          attrs := attrs + [Attribute(false, DEFAULT_ATTR)];
        }
      }
      listed := endpoints;
    }
  }

  // ---------- consistency over runs ----------

  ghost predicate Legal(r: Registry, op: Op) {
    op.Remove? ==> Distinct(op.rest) && SetOf(op.rest) == r.endpointsSet - SetOf(ListOf(r, op.pod))
  }

  /** A pod registers no endpoint that another pod has. */
  ghost predicate KeepsPodsApart(r: Registry, op: Op) {
    op.Register? ==> forall q :: q in r.byPod && q != op.pod ==> SetOf(r.byPod[q]) !! SetOf(op.list)
  }

  /** A pod that registers again names at least the endpoints it named before. */
  ghost predicate Covers(r: Registry, op: Op) {
    op.Register? ==> SetOf(ListOf(r, op.pod)) <= SetOf(op.list)
  }

  ghost function AfterAll(r: Registry, ops: seq<Op>): Registry {
    if ops == [] then r else After(AfterAll(r, ops[..|ops| - 1]), ops[|ops| - 1])
  }

  ghost predicate AllLegal(r: Registry, ops: seq<Op>) {
    ops == [] || (AllLegal(r, ops[..|ops| - 1]) && Legal(AfterAll(r, ops[..|ops| - 1]), ops[|ops| - 1]))
  }

  ghost predicate AllApart(r: Registry, ops: seq<Op>) {
    ops == [] || (AllApart(r, ops[..|ops| - 1]) && KeepsPodsApart(AfterAll(r, ops[..|ops| - 1]), ops[|ops| - 1]))
  }

  ghost predicate AllCover(r: Registry, ops: seq<Op>) {
    ops == [] || (AllCover(r, ops[..|ops| - 1]) && Covers(AfterAll(r, ops[..|ops| - 1]), ops[|ops| - 1]))
  }

  /** The list and the set name the same endpoints, and only those have attributes. */
  ghost predicate Consistent(r: Registry) {
    SetOf(r.endpoints) == r.endpointsSet && r.attrs.Keys <= r.endpointsSet
  }

  lemma StepKeepsConsistent(r: Registry, op: Op)
    requires Consistent(r) && Legal(r, op)
    ensures Consistent(After(r, op))
  {
    if op.Register? {
      assert SetOf(r.endpoints + op.list) == SetOf(r.endpoints) + SetOf(op.list);
    }
  }

  lemma {:induction false} RunsStayConsistent(ops: seq<Op>)
    requires AllLegal(EMPTY_REGISTRY, ops)
    ensures Consistent(AfterAll(EMPTY_REGISTRY, ops))
  {
    if ops == [] {
    } else {
      RunsStayConsistent(ops[..|ops| - 1]);
      StepKeepsConsistent(AfterAll(EMPTY_REGISTRY, ops[..|ops| - 1]), ops[|ops| - 1]);
    }
  }

  ghost predicate PodsApart(r: Registry) {
    forall p, q :: p in r.byPod && q in r.byPod && p != q ==> SetOf(r.byPod[p]) !! SetOf(r.byPod[q])
  }

  ghost predicate HasPod(r: Registry, e: Endpoint) {
    exists p :: p in r.byPod && e in r.byPod[p]
  }

  /** All four collections agree: the set is the attribute keys and the disjoint union of the pods' lists. */
  ghost predicate Agreeing(r: Registry) {
    && Consistent(r) && PodsApart(r)
    && r.attrs.Keys == r.endpointsSet
    && forall e :: e in r.endpointsSet <==> HasPod(r, e)
  }

  lemma PodsOtherThan(r: Registry, pod: string, e: Endpoint)
    requires PodsApart(r)
    ensures (exists q :: q in r.byPod && q != pod && e in r.byPod[q]) <==> HasPod(r, e) && e !in ListOf(r, pod)
  {
    if pod in r.byPod && e in r.byPod[pod] {
      forall q | q in r.byPod && q != pod ensures e !in r.byPod[q] {
        assert SetOf(r.byPod[pod]) !! SetOf(r.byPod[q]);
        assert e in SetOf(r.byPod[pod]);
      }
    }
  }

  lemma RegisterPods(r: Registry, pod: string, list: seq<Endpoint>, e: Endpoint)
    requires PodsApart(r)
    ensures HasPod(After(r, Register(pod, list)), e) <==> e in list || (HasPod(r, e) && e !in ListOf(r, pod))
  {
    PodsOtherThan(r, pod, e);
    var r' := After(r, Register(pod, list));
    if e in list {
      assert pod in r'.byPod && e in r'.byPod[pod];
    } else if q :| q in r.byPod && q != pod && e in r.byPod[q] {
      assert q in r'.byPod && e in r'.byPod[q];
    }
  }

  lemma RemovePods(r: Registry, pod: string, rest: seq<Endpoint>, e: Endpoint)
    requires PodsApart(r)
    ensures HasPod(After(r, Remove(pod, rest)), e) <==> HasPod(r, e) && e !in ListOf(r, pod)
  {
    PodsOtherThan(r, pod, e);
    var r' := After(r, Remove(pod, rest));
    if q :| q in r.byPod && q != pod && e in r.byPod[q] {
      assert q in r'.byPod && e in r'.byPod[q];
    }
  }

  lemma RegisterKeepsPodsApart(r: Registry, pod: string, list: seq<Endpoint>)
    requires PodsApart(r) && KeepsPodsApart(r, Register(pod, list))
    ensures PodsApart(After(r, Register(pod, list)))
  {
  }

  lemma CoveringKeepsAgreeing(r: Registry, pod: string, list: seq<Endpoint>)
    requires Agreeing(r) && KeepsPodsApart(r, Register(pod, list)) && Covers(r, Register(pod, list))
    ensures Agreeing(After(r, Register(pod, list)))
  {
    var r' := After(r, Register(pod, list));
    StepKeepsConsistent(r, Register(pod, list));
    RegisterKeepsPodsApart(r, pod, list);
    CoveringKeepsKeys(r, pod, list);
    forall e ensures e in r'.endpointsSet <==> HasPod(r', e) {
      RegisterPods(r, pod, list, e);
      assert e in ListOf(r, pod) ==> e in SetOf(ListOf(r, pod)) && e in SetOf(list);
    }
  }

  lemma CoveringKeepsKeys(r: Registry, pod: string, list: seq<Endpoint>)
    requires r.attrs.Keys == r.endpointsSet && Covers(r, Register(pod, list))
    ensures After(r, Register(pod, list)).attrs.Keys == After(r, Register(pod, list)).endpointsSet
  {
    assert After(r, Register(pod, list)).attrs.Keys == (r.attrs.Keys - SetOf(ListOf(r, pod))) + SetOf(list);
  }

  /** Registering keeps the collections in agreement exactly when the new list covers the old one. */
  lemma RegisterKeepsAgreementIff(r: Registry, pod: string, list: seq<Endpoint>)
    requires Agreeing(r) && KeepsPodsApart(r, Register(pod, list))
    ensures Agreeing(After(r, Register(pod, list))) <==> Covers(r, Register(pod, list))
  {
    if Covers(r, Register(pod, list)) {
      CoveringKeepsAgreeing(r, pod, list);
    } else {
      var e :| e in SetOf(ListOf(r, pod)) && e !in SetOf(list);
      assert HasPod(r, e);
      assert e in After(r, Register(pod, list)).endpointsSet && e !in After(r, Register(pod, list)).attrs;
    }
  }

  lemma StepKeepsAgreeing(r: Registry, op: Op)
    requires Agreeing(r) && Legal(r, op) && KeepsPodsApart(r, op) && Covers(r, op)
    ensures Agreeing(After(r, op))
  {
    StepKeepsConsistent(r, op);
    match op
    case Register(pod, list) => RegisterKeepsAgreementIff(r, pod, list);
    case Remove(pod, rest) =>
      forall e ensures HasPod(After(r, op), e) <==> HasPod(r, e) && e !in ListOf(r, pod) {
        RemovePods(r, pod, rest, e);
      }
    case _ =>
      assert After(r, op).byPod == r.byPod;
      assert forall e :: HasPod(After(r, op), e) <==> HasPod(r, e);
  }

  /** With disjoint pods and covering re-registrations, every run keeps all four collections agreed. */
  lemma {:induction false} RunsStayAgreeing(ops: seq<Op>)
    requires AllLegal(EMPTY_REGISTRY, ops) && AllApart(EMPTY_REGISTRY, ops) && AllCover(EMPTY_REGISTRY, ops)
    ensures Agreeing(AfterAll(EMPTY_REGISTRY, ops))
  {
    if ops == [] {
    } else {
      RunsStayAgreeing(ops[..|ops| - 1]);
      StepKeepsAgreeing(AfterAll(EMPTY_REGISTRY, ops[..|ops| - 1]), ops[|ops| - 1]);
    }
  }

  // ---------- a hung pod ----------

  /** Every pod's endpoints have attributes, and no endpoint has two pods. */
  ghost predicate PodsHaveAttrs(r: Registry) {
    PodsApart(r) && forall p, e :: p in r.byPod && e in r.byPod[p] ==> e in r.attrs && e in r.endpointsSet
  }

  ghost predicate HungOut(r: Registry, pod: string) {
    forall e :: e in ListOf(r, pod) ==> e in r.attrs && !r.attrs[e].available
  }

  lemma StepKeepsPodAttrs(r: Registry, op: Op)
    requires PodsHaveAttrs(r) && KeepsPodsApart(r, op)
    ensures PodsHaveAttrs(After(r, op))
  {
    var r' := After(r, op);
    forall p, e | p in r'.byPod && e in r'.byPod[p] ensures e in r'.attrs && e in r'.endpointsSet {
      if (op.Register? || op.Remove?) && p != op.pod {
        assert op.pod in r.byPod ==> SetOf(r.byPod[p]) !! SetOf(r.byPod[op.pod]);
        assert e in SetOf(r.byPod[p]);
      }
    }
  }

  lemma StepKeepsHungOut(r: Registry, op: Op, pod: string)
    requires PodsHaveAttrs(r) && KeepsPodsApart(r, op) && HungOut(r, pod)
    requires op.Register? ==> op.pod != pod
    ensures HungOut(After(r, op), pod)
  {
    var r' := After(r, op);
    forall e | e in ListOf(r', pod) ensures e in r'.attrs && !r'.attrs[e].available {
      if op.Register? || (op.Remove? && op.pod != pod) {
        assert op.pod in r.byPod ==> SetOf(r.byPod[pod]) !! SetOf(r.byPod[op.pod]);
        assert e in SetOf(r.byPod[pod]);
        assert op.Register? ==> SetOf(r.byPod[pod]) !! SetOf(op.list);
      }
    }
  }

  lemma {:induction false} RunsKeepPodAttrs(ops: seq<Op>)
    requires AllApart(EMPTY_REGISTRY, ops)
    ensures PodsHaveAttrs(AfterAll(EMPTY_REGISTRY, ops))
  {
    if ops == [] {
    } else {
      RunsKeepPodAttrs(ops[..|ops| - 1]);
      StepKeepsPodAttrs(AfterAll(EMPTY_REGISTRY, ops[..|ops| - 1]), ops[|ops| - 1]);
    }
  }

  /** From the moment a pod hangs until it registers again, its endpoints stay unavailable, whatever
      attributes are set and whatever other pods do. */
  lemma {:induction false} HungPodStaysOut(before: seq<Op>, pod: string, after: seq<Op>)
    requires AllApart(EMPTY_REGISTRY, before + [Hang(pod)] + after)
    requires forall i :: 0 <= i < |after| && after[i].Register? ==> after[i].pod != pod
    ensures HungOut(AfterAll(EMPTY_REGISTRY, before + [Hang(pod)] + after), pod)
    decreases |after|
  {
    var all := before + [Hang(pod)] + after;
    if after == [] {
      assert all[..|all| - 1] == before && all[|all| - 1] == Hang(pod);
      RunsKeepPodAttrs(before);
    } else {
      var init := after[..|after| - 1];
      assert all[..|all| - 1] == before + [Hang(pod)] + init;
      HungPodStaysOut(before, pod, init);
      RunsKeepPodAttrs(before + [Hang(pod)] + init);
      StepKeepsHungOut(AfterAll(EMPTY_REGISTRY, before + [Hang(pod)] + init), after[|after| - 1], pod);
    }
  }

  // ---------- what an endpoint's attributes are ----------

  /** The list a pod registered last, until it is removed. */
  ghost function NamedBy(ops: seq<Op>, pod: string): seq<Endpoint> {
    if ops == [] then []
    else
      var init := ops[..|ops| - 1];
      match ops[|ops| - 1]
      case Register(p, list) => if p == pod then list else NamedBy(init, pod)
      case Remove(p, _) => if p == pod then [] else NamedBy(init, pod)
      case _ => NamedBy(init, pod)
  }

  /** Some registration named the endpoint, and no pod that named it was removed since. */
  ghost predicate IsMember(ops: seq<Op>, e: Endpoint) {
    ops != [] &&
    var init := ops[..|ops| - 1];
    match ops[|ops| - 1]
    case Register(_, list) => e in list || IsMember(init, e)
    case Remove(p, _) => IsMember(init, e) && e !in NamedBy(init, p)
    case _ => IsMember(init, e)
  }

  /** The endpoint has attributes: a registration gives them, a registration or a removal of a pod that named it
      before takes them, and setting one gives them back to a member. */
  ghost predicate IsKnown(ops: seq<Op>, e: Endpoint) {
    ops != [] &&
    var init := ops[..|ops| - 1];
    match ops[|ops| - 1]
    case Register(p, list) => e in list || (IsKnown(init, e) && e !in NamedBy(init, p))
    case Remove(p, _) => IsKnown(init, e) && e !in NamedBy(init, p)
    case SetAttr(x, _, _) => IsKnown(init, e) || (x == e && IsMember(init, e))
    case _ => IsKnown(init, e)
  }

  /** As `IsKnown`, but a hang of a pod that names the endpoint ends it. */
  ghost predicate IsAvailable(ops: seq<Op>, e: Endpoint) {
    ops != [] &&
    var init := ops[..|ops| - 1];
    match ops[|ops| - 1]
    case Register(p, list) => e in list || (IsAvailable(init, e) && e !in NamedBy(init, p))
    case Remove(p, _) => IsAvailable(init, e) && e !in NamedBy(init, p)
    case Hang(p) => IsAvailable(init, e) && e !in NamedBy(init, p)
    case SetAttr(x, _, _) => IsAvailable(init, e) || (x == e && IsMember(init, e) && !IsKnown(init, e))
    case _ => IsAvailable(init, e)
  }

  /** The attribute set last for a selector since the endpoint was last registered, if any. */
  ghost function LastSet(ops: seq<Op>, e: Endpoint, selector: string): Option<AttrInSelector> {
    if ops == [] then None
    else
      var init := ops[..|ops| - 1];
      match ops[|ops| - 1]
      case Register(p, list) => if e in list || e in NamedBy(init, p) then None else LastSet(init, e, selector)
      case Remove(p, _) => if e in NamedBy(init, p) then None else LastSet(init, e, selector)
      case SetAttr(x, name, attr) =>
        if x == e && name == selector && IsMember(init, e) then Some(attr) else LastSet(init, e, selector)
      case _ => LastSet(init, e, selector)
  }

  lemma {:induction false} ListsAreNamed(ops: seq<Op>, pod: string)
    ensures ListOf(AfterAll(EMPTY_REGISTRY, ops), pod) == NamedBy(ops, pod)
  {
    if ops != [] {
      ListsAreNamed(ops[..|ops| - 1], pod);
    }
  }

  lemma PodListIsNamed(ops: seq<Op>, op: Op)
    ensures (op.Register? || op.Remove? || op.Hang?) ==> ListOf(AfterAll(EMPTY_REGISTRY, ops), op.pod) == NamedBy(ops, op.pod)
  {
    if op.Register? || op.Remove? || op.Hang? {
      ListsAreNamed(ops, op.pod);
    }
  }

  lemma {:induction false} MembersAre(ops: seq<Op>, e: Endpoint)
    ensures e in AfterAll(EMPTY_REGISTRY, ops).endpointsSet <==> IsMember(ops, e)
  {
    if ops != [] {
      MembersAre(ops[..|ops| - 1], e);
      PodListIsNamed(ops[..|ops| - 1], ops[|ops| - 1]);
    }
  }

  /** The attributes that a map holds for an endpoint. */
  ghost predicate Holds(attrs: map<Endpoint, Attributes>, e: Endpoint, selector: string, known: bool, available: bool, given: Option<AttrInSelector>) {
    && (e in attrs <==> known)
    && (if e in attrs then
          && attrs[e].available == available
          && (if selector in attrs[e].inSelector then given == Some(attrs[e].inSelector[selector]) else given.None?)
        else !available && given.None?)
  }

  lemma {:induction false} AttributesAreHeld(ops: seq<Op>, e: Endpoint, selector: string)
    ensures Holds(AfterAll(EMPTY_REGISTRY, ops).attrs, e, selector, IsKnown(ops, e), IsAvailable(ops, e), LastSet(ops, e, selector))
  {
    if ops != [] {
      var init := ops[..|ops| - 1];
      AttributesAreHeld(init, e, selector);
      PodListIsNamed(init, ops[|ops| - 1]);
      MembersAre(init, e);
    }
  }

  /** After any operations, an endpoint's attribute for a selector is the one set last since its registration, or
      weight 1, no rate and deadline 0 if there was none; and whether it is available is what `IsAvailable` says. */
  lemma AttributesAre(ops: seq<Op>, e: Endpoint, selector: string)
    ensures AttributeOf(AfterAll(EMPTY_REGISTRY, ops), e, selector) ==
            Attribute(IsAvailable(ops, e),
                      match LastSet(ops, e, selector) { case Some(attr) => attr case None => AttrInSelector(Some(1), None, Some(0)) })
  {
    AttributesAreHeld(ops, e, selector);
  }

  /** The pod hung since it last registered. */
  ghost predicate HungSince(ops: seq<Op>, pod: string) {
    ops != [] &&
    var init := ops[..|ops| - 1];
    match ops[|ops| - 1]
    case Register(p, _) => p != pod && HungSince(init, pod)
    case Hang(p) => p == pod || HungSince(init, pod)
    case _ => HungSince(init, pod)
  }

  lemma NamedByOnePod(ops: seq<Op>, p: string, q: string, e: Endpoint)
    requires AllApart(EMPTY_REGISTRY, ops) && e in NamedBy(ops, p) && e in NamedBy(ops, q)
    ensures p == q
  {
    var r := AfterAll(EMPTY_REGISTRY, ops);
    RunsKeepPodAttrs(ops);
    ListsAreNamed(ops, p);
    ListsAreNamed(ops, q);
    assert e in SetOf(r.byPod[p]) && e in SetOf(r.byPod[q]);
  }

  /** When pods have no endpoint in common, an endpoint on a pod's list is available exactly when the pod has not
      hung since it last registered. */
  lemma {:induction false} AvailableIffNotHung(ops: seq<Op>, pod: string, e: Endpoint)
    requires AllApart(EMPTY_REGISTRY, ops) && e in NamedBy(ops, pod)
    ensures IsKnown(ops, e) && (IsAvailable(ops, e) <==> !HungSince(ops, pod))
  {
    var init, op := ops[..|ops| - 1], ops[|ops| - 1];
    if op.Register? && op.pod == pod {
    } else {
      AvailableIffNotHung(init, pod, e);
      if op.Register? || op.Remove? || op.Hang? {
        if e in NamedBy(init, op.pod) {
          NamedByOnePod(init, pod, op.pod, e);
        }
      }
      if op.Register? {
        NamedElsewhere(init, op, pod, e);
      }
    }
  }

  lemma NamedElsewhere(ops: seq<Op>, op: Op, pod: string, e: Endpoint)
    requires op.Register? && op.pod != pod && e in NamedBy(ops, pod)
    requires KeepsPodsApart(AfterAll(EMPTY_REGISTRY, ops), op)
    ensures e !in op.list
  {
    var r := AfterAll(EMPTY_REGISTRY, ops);
    ListsAreNamed(ops, pod);
    assert e in SetOf(r.byPod[pod]) && SetOf(r.byPod[pod]) !! SetOf(op.list);
  }

  /** An endpoint that its pod dropped when it registered again comes back, available, with the next attribute
      that is set for it, although no pod names it. */
  lemma DroppedEndpointComesBack(pod: string, e: Endpoint, selector: string, attr: AttrInSelector) returns (ops: seq<Op>)
    ensures ops == [Register(pod, [e]), Register(pod, []), SetAttr(e, selector, attr)]
    ensures var r := AfterAll(EMPTY_REGISTRY, ops);
            && (forall p :: ListOf(r, p) == [])
            && e in r.endpoints && e in r.attrs && r.attrs[e].available
  {
    OneMoreOp([], Register(pod, [e]));
    OneMoreOp([Register(pod, [e])], Register(pod, []));
    assert [] + [Register(pod, [e])] == [Register(pod, [e])];
    assert [Register(pod, [e])] + [Register(pod, [])] == [Register(pod, [e]), Register(pod, [])];
    ops := [Register(pod, [e]), Register(pod, [])] + [SetAttr(e, selector, attr)];
    OneMoreOp([Register(pod, [e]), Register(pod, [])], SetAttr(e, selector, attr));
    Dropped(pod, e);
  }

  lemma OneMoreOp(ops: seq<Op>, op: Op)
    ensures AfterAll(EMPTY_REGISTRY, ops + [op]) == After(AfterAll(EMPTY_REGISTRY, ops), op)
  {
    assert (ops + [op])[..|ops|] == ops;
  }

  lemma Dropped(pod: string, e: Endpoint)
    ensures var r := After(After(EMPTY_REGISTRY, Register(pod, [e])), Register(pod, []));
            r.endpoints == [e] && e in r.endpointsSet && r.byPod == map[pod := []] && r.attrs == map[]
  {
    var one := After(EMPTY_REGISTRY, Register(pod, [e]));
    assert one.byPod == map[pod := [e]] && one.endpoints == [e] && one.attrs.Keys == {e};
  }

  /** Every change is counted once: an operation that changes the pods advances the version by one, and so does a
      reader that finds the mark; setting an attribute leaves the version to the next of them. */
  lemma VersionAdvances(r: Registry, op: Op)
    ensures match op
            case SetAttr(e, _, _) => After(r, op).version == r.version && After(r, op).dirty == (r.dirty || e in r.endpointsSet)
            case Observe => After(r, op).version == r.version + (if r.dirty then 1 else 0) && !After(r, op).dirty
            case _ => After(r, op).version == r.version + 1 && !After(r, op).dirty
  {
  }
}
