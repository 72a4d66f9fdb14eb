/**
 A selector's view of a service: the filtered snapshot its strategy works on, when that snapshot is
 current, and the checks made on a choice before it is returned.
 */
module Selectors {
  import opened Base
  import opened Endpoints
  import opened Registries

  datatype Filter = Good | Fuse

  function Passes(filter: Filter, maxRequests: Option<U32>, a: Attribute): bool {
    match filter
    case Good => a.available
    case Fuse => a.inSelector.rps.None? || maxRequests.None? || a.inSelector.rps.value <= maxRequests.value
  }

  function PassesAll(filters: seq<Filter>, maxRequests: Option<U32>, a: Attribute): bool {
    forall f :: f in filters ==> Passes(f, maxRequests, a)
  }

  type Headers = map<string, string>

  datatype Config = Config(name: string, strategy: string, service: string, headers: Headers, maxRequests: Option<U32>, filters: seq<Filter>)

  type Snapshot = map<Endpoint, Attribute>

  /** The snapshot computed afresh from the registry. */
  function Fresh(r: Registry, c: Config): Snapshot {
    map e | e in SetOf(r.endpoints) && PassesAll(c.filters, c.maxRequests, AttributeOf(r, e, c.name)) :: AttributeOf(r, e, c.name)
  }

  // ---------- the checks on a choice ----------

  datatype Checked = Ok(endpoint: Endpoint) | EndpointUnavailable | RpsLimit | NilDereference

  /** What becomes of a strategy's choice. An endpoint unknown by now, or one without attributes in this
      selector when a request limit is set, is read through a nil pointer. */
  function Check(r: Registry, c: Config, e: Endpoint): Checked {
    if e !in r.attrs then NilDereference
    else if !r.attrs[e].available then EndpointUnavailable
    else if c.maxRequests.None? then Ok(e)
    else if c.name !in r.attrs[e].inSelector then NilDereference
    else
      var rps := r.attrs[e].inSelector[c.name].rps;
      if rps.Some? && rps.value >= c.maxRequests.value then RpsLimit else Ok(e)
  }

  /** What a strategy answers, and what `Select` makes of it. */
  datatype Choice = Choice(endpoint: Option<Endpoint>, headers: Option<Headers>, error: Option<string>)

  datatype SelectError = FromStrategy(text: string) | Unavailable | AtLimit

  datatype Selection = Selection(endpoint: Option<Endpoint>, headers: Headers, error: Option<SelectError>) | NilPanic

  function BaseHeaders(c: Config): Headers {
    map["yapr-strategy" := c.strategy, "yapr-selector" := c.name, "yapr-service" := c.service] + c.headers
  }

  function HeadersOf(c: Config, choice: Choice): Headers {
    BaseHeaders(c) + match choice.headers { case None => map[] case Some(h) => h }
  }

  ghost predicate Admissible(r: Registry, c: Config, e: Endpoint) {
    && e in r.attrs && r.attrs[e].available
    && (c.maxRequests.Some? ==>
          && c.name in r.attrs[e].inSelector
          && var rps := r.attrs[e].inSelector[c.name].rps;
             rps.Some? ==> rps.value < c.maxRequests.value)
  }

  /** The selection, given the strategy's answer and the registry as it is when the answer is checked. */
  ghost predicate Judged(r: Registry, c: Config, choice: Choice, s: Selection) {
    if choice.error.Some? || choice.endpoint.None? then
      s == Selection(choice.endpoint, HeadersOf(c, choice), if choice.error.None? then None else Some(FromStrategy(choice.error.value)))
    else
      match Check(r, c, choice.endpoint.value)
      case NilDereference => s == NilPanic
      case Ok(e) => s == Selection(Some(e), HeadersOf(c, choice), None)
      case EndpointUnavailable => s == Selection(choice.endpoint, HeadersOf(c, choice), Some(Unavailable))
      case RpsLimit => s == Selection(choice.endpoint, HeadersOf(c, choice), Some(AtLimit))
  }

  /** The filters let an endpoint through: to be good it must have attributes and be available; to pass the fuse
      it must have no rate in this selector, or there is no maximum, or the rate is at most the maximum. */
  ghost predicate LetThrough(r: Registry, c: Config, e: Endpoint) {
    && (Good in c.filters ==> e in r.attrs && r.attrs[e].available)
    && (Fuse in c.filters && c.maxRequests.Some? && e in r.attrs && c.name in r.attrs[e].inSelector ==>
          var rps := r.attrs[e].inSelector[c.name].rps;
          rps.Some? ==> rps.value <= c.maxRequests.value)
  }

  /** An endpoint is in the snapshot exactly when it is listed and the filters let it through; it comes with its
      attribute for this selector, or weight 1, no rate and deadline 0. */
  lemma SnapshotIff(r: Registry, c: Config, e: Endpoint)
    ensures e in Fresh(r, c) <==> e in r.endpoints && LetThrough(r, c, e)
    ensures e in Fresh(r, c) ==>
              Fresh(r, c)[e] == Attribute(e in r.attrs && r.attrs[e].available,
                                          if e in r.attrs && c.name in r.attrs[e].inSelector then r.attrs[e].inSelector[c.name]
                                          else AttrInSelector(Some(1), None, Some(0)))
  {
    var a := AttributeOf(r, e, c.name);
    assert PassesAll(c.filters, c.maxRequests, a) <==> LetThrough(r, c, e) by {
      assert Good in c.filters ==> (Passes(Good, c.maxRequests, a) <==> e in r.attrs && r.attrs[e].available);
      assert forall f :: f in c.filters ==> f == Good || f == Fuse;
    }
  }

  /** What a selection would accept, the snapshot holds. */
  lemma AdmissibleIsInSnapshot(r: Registry, c: Config, e: Endpoint)
    requires e in r.endpoints && Admissible(r, c, e)
    ensures e in Fresh(r, c)
  {
    SnapshotIff(r, c, e);
  }

  /** The headers of a selection: the strategy's own, else those configured, else the three of every selection. */
  lemma HeadersAre(c: Config, choice: Choice, k: string)
    ensures (if k in HeadersOf(c, choice) then Some(HeadersOf(c, choice)[k]) else None) ==
            if choice.headers.Some? && k in choice.headers.value then Some(choice.headers.value[k])
            else if k in c.headers then Some(c.headers[k])
            else if k == "yapr-strategy" then Some(c.strategy)
            else if k == "yapr-selector" then Some(c.name)
            else if k == "yapr-service" then Some(c.service)
            else None
  {
  }

  /** What comes with a selection that does not panic: the strategy's endpoint, the merged headers, and the
      strategy's error, or that the endpoint is unavailable, or that its rate is at the maximum. */
  lemma SelectionIs(r: Registry, c: Config, choice: Choice, s: Selection)
    requires Judged(r, c, choice, s) && s.Selection?
    ensures s.endpoint == choice.endpoint && s.headers == HeadersOf(c, choice)
    ensures s.error == match choice.error
                       case Some(text) => Some(FromStrategy(text))
                       case None =>
                         if choice.endpoint.None? then None
                         else if !r.attrs[choice.endpoint.value].available then Some(Unavailable)
                         else if c.maxRequests.None? then None
                         else
                           match r.attrs[choice.endpoint.value].inSelector[c.name].rps
                           case Some(rate) => if rate >= c.maxRequests.value then Some(AtLimit) else None
                           case None => None
  {
  }

  class Selector {
    const config: Config
    const service: Service
    var lastVersion: nat
    var snapshot: Snapshot  // what the strategy was last updated with

    constructor (config: Config, service: Service)
      ensures this.config == config && this.service == service && lastVersion == 0 && snapshot == map[]
    {
      this.config, this.service, lastVersion, snapshot := config, service, 0, map[];
    }

    method EndpointsWithAttribute() returns (result: Snapshot)
      modifies service
      ensures service.State() == After(old(service.State()), Observe)
      ensures result == Fresh(service.State(), config)
      ensures forall e :: e in result <==> e in service.endpoints && LetThrough(service.State(), config, e)
    {
      var endpoints, attributes := service.AttributesFor(config.name);
      result := map[];
      for i := 0 to |endpoints|
        invariant result == map e | e in SetOf(endpoints[..i]) && PassesAll(config.filters, config.maxRequests, AttributeOf(service.State(), e, config.name))
                            :: AttributeOf(service.State(), e, config.name)
      {
        var keep := true;
        for j := 0 to |config.filters|
          invariant keep == PassesAll(config.filters[..j], config.maxRequests, attributes[i])
        {
          assert config.filters[..j + 1] == config.filters[..j] + [config.filters[j]];
          if !Passes(config.filters[j], config.maxRequests, attributes[i]) {
            keep := false;
          }
        }
        assert config.filters[..|config.filters|] == config.filters;
        assert endpoints[..i + 1] == endpoints[..i] + [endpoints[i]];
        if keep {
          result := result[endpoints[i] := attributes[i]];
        }
      }
      assert endpoints[..|endpoints|] == endpoints;
      forall e ensures e in result <==> e in service.endpoints && LetThrough(service.State(), config, e) {
        SnapshotIff(service.State(), config, e);
      }
    }

    /** The version check at the start of `Select`, when the throttle lets it through and no one interferes. */
    method Renew()
      modifies this, service
      ensures service.State() == After(old(service.State()), Observe)
      ensures lastVersion == if service.State().version > old(lastVersion) then service.State().version else old(lastVersion)
      ensures snapshot == if service.State().version > old(lastVersion) then Fresh(service.State(), config) else old(snapshot)
    {
      var version := service.Version();
      if version > lastVersion {
        snapshot := EndpointsWithAttribute();
        lastVersion := version;
      }
    }

    /** `strategy` answers from the snapshot it was last given; `throttled` says that the last renewal is
        too recent for another. */
    method Select(strategy: Snapshot -> Choice, throttled: bool) returns (s: Selection)
      modifies this, service
      ensures service.State() == if throttled then old(service.State()) else After(old(service.State()), Observe)
      ensures lastVersion == if service.State().version > old(lastVersion) && !throttled then service.State().version else old(lastVersion)
      ensures snapshot == if service.State().version > old(lastVersion) && !throttled then Fresh(service.State(), config) else old(snapshot)
      ensures Judged(service.State(), config, strategy(snapshot), s)
    {
      if !throttled {
        Renew();
      }
      var headers := BaseHeaders(config);
      var choice := strategy(snapshot);
      var error := if choice.error.None? then None else Some(FromStrategy(choice.error.value));
      if choice.endpoint.Some? && choice.error.None? {
        var e := choice.endpoint.value;
        if e !in service.attrMap {
          return NilPanic;
        }
        var attribute := service.attrMap[e];
        if !attribute.available {
          error := Some(Unavailable);
        } else if config.maxRequests.Some? {
          if config.name !in attribute.inSelector {
            return NilPanic;
          }
          var rps := attribute.inSelector[config.name].rps;
          if rps.Some? && rps.value >= config.maxRequests.value {
            error := Some(AtLimit);
          }
        }
      }
      if choice.headers.Some? {
        headers := headers + choice.headers.value;
      }
      s := Selection(choice.endpoint, headers, error);
    }
  }

  // ---------- hung pods and the limit ----------

  /** A selection names an endpoint without error exactly when the strategy did and the registry, as it is
      now, has it available and below the limit, however old the snapshot it was chosen from. */
  lemma ErrorFreeIff(r: Registry, c: Config, choice: Choice, s: Selection, e: Endpoint)
    requires Judged(r, c, choice, s)
    ensures s.Selection? && s.endpoint == Some(e) && s.error.None? <==>
            choice.endpoint == Some(e) && choice.error.None? && Admissible(r, c, e)
  {
  }

  /** `Select` panics exactly when the strategy named an endpoint that the registry no longer knows, or an
      available one that has no attributes for this selector yet while requests are limited. */
  lemma PanicsIff(r: Registry, c: Config, choice: Choice, s: Selection)
    requires Judged(r, c, choice, s)
    ensures s.NilPanic? <==>
            choice.error.None? && choice.endpoint.Some? &&
            var e := choice.endpoint.value;
            e !in r.attrs || (r.attrs[e].available && c.maxRequests.Some? && c.name !in r.attrs[e].inSelector)
  {
  }

  /** An endpoint the registry knows has no attributes for the selector. */
  ghost predicate Bare(r: Registry, e: Endpoint, name: string) {
    e in r.attrs ==> name !in r.attrs[e].inSelector
  }

  lemma RegisteredIsBare(r: Registry, pod: string, list: seq<Endpoint>, e: Endpoint, name: string)
    requires e in list
    ensures Bare(After(r, Register(pod, list)), e, name)
  {
  }

  lemma StepKeepsBare(r: Registry, op: Op, e: Endpoint, name: string)
    requires Bare(r, e, name) && !(op.SetAttr? && op.endpoint == e && op.selector == name)
    ensures Bare(After(r, op), e, name)
  {
  }

  lemma {:induction false} StaysBare(r: Registry, ops: seq<Op>, e: Endpoint, name: string)
    requires Bare(r, e, name) && forall i :: 0 <= i < |ops| ==> !(ops[i].SetAttr? && ops[i].endpoint == e && ops[i].selector == name)
    ensures Bare(AfterAll(r, ops), e, name)
  {
    if ops != [] {
      StaysBare(r, ops[..|ops| - 1], e, name);
      StepKeepsBare(AfterAll(r, ops[..|ops| - 1]), ops[|ops| - 1], e, name);
    }
  }

  /** From its registration, in whatever registry, until the selector's first attribute for it arrives, every
      choice of an endpoint under a request limit panics, unless its pod hangs, and then it is refused. */
  lemma NewEndpointPanicsUntilAttributed(before: Registry, pod: string, list: seq<Endpoint>, later: seq<Op>, e: Endpoint, c: Config)
    requires e in list && c.maxRequests.Some?
    requires forall i :: 0 <= i < |later| ==> !(later[i].SetAttr? && later[i].endpoint == e && later[i].selector == c.name)
    ensures var r := AfterAll(After(before, Register(pod, list)), later);
            Check(r, c, e) == if e in r.attrs && !r.attrs[e].available then EndpointUnavailable else NilDereference
  {
    RegisteredIsBare(before, pod, list, e, c.name);
    StaysBare(After(before, Register(pod, list)), later, e, c.name);
  }

  lemma HungOutIsRefused(r: Registry, pod: string, c: Config, e: Endpoint)
    requires HungOut(r, pod) && e in ListOf(r, pod)
    ensures (Good in c.filters ==> e !in Fresh(r, c)) && Check(r, c, e) == EndpointUnavailable
  {
    assert !AttributeOf(r, e, c.name).available;
  }

  /** While a pod hangs, no good-endpoint snapshot contains its endpoints, and no choice of one of them
      comes back without an error, however old the snapshot it was made from. */
  lemma HungPodIsNeverSelected(before: seq<Op>, pod: string, after: seq<Op>, r: Registry, c: Config, e: Endpoint)
    requires AllApart(EMPTY_REGISTRY, before + [Hang(pod)] + after)
    requires forall i :: 0 <= i < |after| && after[i].Register? ==> after[i].pod != pod
    requires r == AfterAll(EMPTY_REGISTRY, before + [Hang(pod)] + after) && e in ListOf(r, pod)
    ensures (Good in c.filters ==> e !in Fresh(r, c)) && Check(r, c, e) == EndpointUnavailable
  {
    HungPodStaysOut(before, pod, after);
    HungOutIsRefused(r, pod, c, e);
  }

  /** The fuse filter and the final check disagree exactly at the limit: an available endpoint that the
      filter lets into the snapshot is refused when its request rate equals the maximum. */
  lemma FuseAndCheckDisagreeAtLimit(r: Registry, c: Config, e: Endpoint)
    requires e in r.attrs && r.attrs[e].available && c.name in r.attrs[e].inSelector
    ensures Passes(Fuse, c.maxRequests, AttributeOf(r, e, c.name)) && Check(r, c, e) == RpsLimit <==>
            c.maxRequests.Some? && r.attrs[e].inSelector[c.name].rps == c.maxRequests
  {
  }

  // ---------- many callers at once ----------

  /** Callers of `Select` run concurrently with each other and with the registry. Each may have read a version;
      at most one holds the lock and has updated the strategy without having recorded the version yet. An
      operation on the registry and the `update` it defers are separate steps, and since `update` looks at the
      mark before it takes the lock, it may come again when another has cleared the mark already. */
  datatype Shared = Shared(registry: Registry, lastVersion: nat, snapshot: Snapshot, read: map<nat, nat>, holder: Option<nat>)

  const START := Shared(EMPTY_REGISTRY, 0, map[], map[], None)

  datatype Step = Change(op: Op) | Update | ReadVersion(caller: nat) | TakeSnapshot(caller: nat) | Record(caller: nat)

  /** An operation on the registry before the `update` it defers. */
  function Changed(r: Registry, op: Op): Registry {
    match op
    case Observe => r
    case SetAttr(_, _, _) => After(r, op)
    case _ => After(r, op).(dirty := true, version := r.version)
  }

  lemma ChangedThenUpdated(r: Registry, op: Op)
    ensures After(r, op) == if op.SetAttr? then Changed(r, op) else Updated(Changed(r, op))
  {
  }

  predicate Enabled(s: Shared, step: Step) {
    match step
    case Change(_) => true
    case Update => true
    case ReadVersion(t) => s.holder != Some(t)
    case TakeSnapshot(t) => s.holder == None && t in s.read && s.read[t] > s.lastVersion
    case Record(t) => s.holder == Some(t) && t in s.read
  }

  function Next(c: Config, s: Shared, step: Step): Shared
    requires Enabled(s, step)
  {
    match step
    case Change(op) => s.(registry := Changed(s.registry, op))
    case Update => s.(registry := s.registry.(dirty := false, version := s.registry.version + 1))
    case ReadVersion(t) => s.(read := s.read[t := s.registry.version])
    case TakeSnapshot(t) => s.(snapshot := Fresh(s.registry, c), holder := Some(t))
    case Record(t) => s.(lastVersion := s.read[t], holder := None)
  }

  ghost predicate Current(c: Config, s: Shared, version: nat) {
    version == s.registry.version && !s.registry.dirty ==> s.snapshot == Fresh(s.registry, c)
  }

  ghost predicate Inv(c: Config, s: Shared) {
    && s.lastVersion <= s.registry.version
    && (forall t :: t in s.read ==> s.read[t] <= s.registry.version)
    && Current(c, s, s.lastVersion)
    && (s.holder.Some? ==> s.holder.value in s.read && s.read[s.holder.value] > s.lastVersion && Current(c, s, s.read[s.holder.value]))
  }

  /** An operation that leaves the registry unmarked changed nothing. */
  lemma QuietOpChangesNothing(r: Registry, op: Op)
    ensures Changed(r, op).version == r.version
    ensures !Changed(r, op).dirty ==> Changed(r, op) == r
  {
  }

  lemma StepKeepsInv(c: Config, s: Shared, step: Step)
    requires Inv(c, s) && Enabled(s, step)
    ensures Inv(c, Next(c, s, step)) && s.lastVersion <= Next(c, s, step).lastVersion
  {
    if step.Change? {
      QuietOpChangesNothing(s.registry, step.op);
    }
  }

  ghost predicate IsRun(c: Config, steps: seq<Step>)
    decreases |steps|, 0
  {
    steps == [] ||
    (IsRun(c, steps[..|steps| - 1]) && Enabled(Reached(c, steps[..|steps| - 1]), steps[|steps| - 1]))
  }

  ghost function Reached(c: Config, steps: seq<Step>): Shared
    requires IsRun(c, steps)
    decreases |steps|, 1
  {
    if steps == [] then START else Next(c, Reached(c, steps[..|steps| - 1]), steps[|steps| - 1])
  }

  lemma {:induction false} RunKeepsInv(c: Config, steps: seq<Step>)
    requires IsRun(c, steps)
    ensures Inv(c, Reached(c, steps))
  {
    if steps == [] {
      assert Fresh(EMPTY_REGISTRY, c) == map[];
    } else {
      RunKeepsInv(c, steps[..|steps| - 1]);
      StepKeepsInv(c, Reached(c, steps[..|steps| - 1]), steps[|steps| - 1]);
    }
  }

  /** In every interleaving, whenever the recorded version is the one `Version` would return, the
      strategy's snapshot is what a fresh computation would give. */
  lemma RecordedVersionMeansCurrentSnapshot(c: Config, steps: seq<Step>)
    requires IsRun(c, steps)
    ensures var s := Reached(c, steps);
            s.lastVersion == After(s.registry, Observe).version ==> s.snapshot == Fresh(After(s.registry, Observe), c)
  {
    RunKeepsInv(c, steps);
  }

  /** The recorded version never goes back. */
  lemma {:induction false} RecordedVersionNeverDecreases(c: Config, steps: seq<Step>, n: nat)
    requires IsRun(c, steps) && n <= |steps|
    ensures IsRun(c, steps[..n]) && Reached(c, steps[..n]).lastVersion <= Reached(c, steps).lastVersion
    decreases |steps|
  {
    if n == |steps| {
      assert steps[..n] == steps;
    } else {
      var init := steps[..|steps| - 1];
      RecordedVersionNeverDecreases(c, init, n);
      assert init[..n] == steps[..n];
      RunKeepsInv(c, init);
      StepKeepsInv(c, Reached(c, init), steps[|steps| - 1]);
    }
  }
}
