/**
 The services a server registers: what the service store remembers of them, which endpoints the server
 takes to be its own, and for which services. Every operation is one step, one after another.
 */
module Servings {
  import opened Base
  import opened Endpoints

  /** `leased` are the services the store holds a lease for; `endpoints` are the server's own. */
  datatype Serving = Serving(endpoints: set<Endpoint>, byService: map<string, seq<Endpoint>>, leased: set<string>)

  const NOTHING_SERVED := Serving({}, map[], {})

  /** Where a registration with the store fails: before its lease is remembered, or after, when the list of
      endpoints cannot be written. */
  datatype Fault = NoFault | BeforeLease | AfterLease

  datatype Op = Register(service: string, list: seq<Endpoint>, fault: Fault) | Unregister(service: string)

  /** The store refuses a service it holds a lease for. */
  predicate IsAccepted(s: Serving, op: Op) {
    op.Register? && op.service !in s.leased && op.fault.NoFault?
  }

  function ListOf(s: Serving, service: string): seq<Endpoint> {
    if service in s.byService then s.byService[service] else []
  }

  function After(s: Serving, op: Op): Serving {
    match op
    case Register(service, list, fault) =>
      if service in s.leased || fault.BeforeLease? then s
      else if fault.AfterLease? then s.(leased := s.leased + {service})
      else Serving(s.endpoints + SetOf(list), s.byService[service := list], s.leased + {service})
    case Unregister(service) =>
      Serving(s.endpoints - SetOf(ListOf(s, service)), s.byService - {service}, s.leased - {service})
  }

  /** The part of the store that registers services. */
  class ServiceStore {
    var leased: set<string>

    constructor ()
      ensures leased == {}
    {
      leased := {};
    }

    method RegisterService(service: string, fault: Fault) returns (ok: bool)
      modifies this
      ensures ok == (service !in old(leased) && fault.NoFault?)
      ensures leased == old(leased) + if fault.BeforeLease? then {} else {service}
    {
      if service in leased {
        assert leased + {service} == leased;
        return false;
      }
      if fault.BeforeLease? {
        return false;
      }
      leased := leased + {service};
      ok := fault.NoFault?;
    }

    method UnregisterService(service: string)
      modifies this
      ensures leased == old(leased) - {service}
    {
      if service !in leased {
        return;
      }
      leased := leased - {service};
    }
  }

  // ---------- runs ----------

  function AfterAll(ops: seq<Op>): Serving {
    if ops == [] then NOTHING_SERVED else After(AfterAll(ops[..|ops| - 1]), ops[|ops| - 1])
  }

  /** The endpoints on the lists of the registered services. */
  ghost function Listed(s: Serving): set<Endpoint> {
    set service, e | service in s.byService && e in s.byService[service] :: e
  }

  ghost predicate IsExact(s: Serving) {
    s.endpoints == Listed(s)
  }

  ghost predicate Proper(s: Serving) {
    s.endpoints <= Listed(s) && s.byService.Keys <= s.leased
  }

  /** The lists of the other services. */
  ghost function ListedBesides(s: Serving, service: string): set<Endpoint> {
    Listed(s.(byService := s.byService - {service}))
  }

  lemma ListedIsBoth(s: Serving, service: string)
    ensures Listed(s) == ListedBesides(s, service) + SetOf(ListOf(s, service))
  {
    var rest := s.byService - {service};
    forall e ensures e in Listed(s) <==> e in ListedBesides(s, service) + SetOf(ListOf(s, service)) {
      if e in Listed(s) {
        var t :| t in s.byService && e in s.byService[t];
        assert t != service ==> t in rest && e in rest[t];
      }
      if e in ListedBesides(s, service) {
        var t :| t in rest && e in rest[t];
        assert t in s.byService && e in s.byService[t];
      }
    }
  }

  /** What is listed after an operation. */
  lemma ListedAfter(s: Serving, op: Op)
    requires Proper(s)
    ensures Listed(After(s, op)) ==
            if IsAccepted(s, op) then Listed(s) + SetOf(op.list)
            else if op.Unregister? then ListedBesides(s, op.service) else Listed(s)
  {
    if IsAccepted(s, op) {
      var s' := After(s, op);
      ListedIsBoth(s', op.service);
      assert s'.byService - {op.service} == s.byService;
    }
  }

  lemma StepKeepsProper(s: Serving, op: Op)
    requires Proper(s)
    ensures Proper(After(s, op))
  {
    ListedAfter(s, op);
    ListedIsBoth(s, op.service);
  }

  /** From a state in which exactly the listed endpoints are served, an operation leaves such a state exactly
      when it does not unregister a list that shares an endpoint with a remaining one. */
  lemma StepKeepsExactIff(s: Serving, op: Op)
    requires Proper(s) && IsExact(s)
    ensures IsExact(After(s, op)) <==> (op.Unregister? ==> SetOf(ListOf(s, op.service)) !! ListedBesides(s, op.service))
  {
    ListedAfter(s, op);
    ListedIsBoth(s, op.service);
  }

  lemma {:induction false} RunsStayProper(ops: seq<Op>)
    ensures Proper(AfterAll(ops))
  {
    if ops != [] {
      RunsStayProper(ops[..|ops| - 1]);
      StepKeepsProper(AfterAll(ops[..|ops| - 1]), ops[|ops| - 1]);
    }
  }

  /** The last operation on a list that names `e` was its registration, and not its removal. */
  ghost predicate RegisteredLast(ops: seq<Op>, e: Endpoint) {
    ops != [] &&
    var s, op := AfterAll(ops[..|ops| - 1]), ops[|ops| - 1];
    if IsAccepted(s, op) && e in op.list then true
    else if op.Unregister? && e in ListOf(s, op.service) then false
    else RegisteredLast(ops[..|ops| - 1], e)
  }

  lemma {:induction false} ServedIffRegisteredLast(ops: seq<Op>, e: Endpoint)
    ensures e in AfterAll(ops).endpoints <==> RegisteredLast(ops, e)
  {
    if ops != [] {
      ServedIffRegisteredLast(ops[..|ops| - 1], e);
    }
  }

  /** After any operations, with any failures of the store: every endpoint served is listed; and every endpoint
      listed is served if and only if none of them was unregistered with another list and not registered since. */
  lemma ServesExactlyListedIff(ops: seq<Op>)
    ensures AfterAll(ops).endpoints <= Listed(AfterAll(ops))
    ensures IsExact(AfterAll(ops)) <==> forall e :: e in Listed(AfterAll(ops)) ==> RegisteredLast(ops, e)
  {
    RunsStayProper(ops);
    forall e ensures e in AfterAll(ops).endpoints <==> RegisteredLast(ops, e) {
      ServedIffRegisteredLast(ops, e);
    }
  }

  /** No list that is unregistered shares an endpoint with one that remains. */
  ghost predicate SharesNothing(ops: seq<Op>) {
    ops == [] ||
    (SharesNothing(ops[..|ops| - 1]) &&
     var s, op := AfterAll(ops[..|ops| - 1]), ops[|ops| - 1];
     op.Unregister? ==> SetOf(ListOf(s, op.service)) !! ListedBesides(s, op.service))
  }

  /** All along a run exactly the listed endpoints are served, if and only if no list that is unregistered
      shares an endpoint with one that remains. */
  lemma {:induction false} AlwaysExactIff(ops: seq<Op>)
    ensures SharesNothing(ops) <==> forall n :: 0 <= n <= |ops| ==> IsExact(AfterAll(ops[..n]))
    ensures SharesNothing(ops) ==> IsExact(AfterAll(ops))
  {
    assert ops[..|ops|] == ops;
    if ops == [] {
      assert Listed(NOTHING_SERVED) == {};
    } else {
      var init := ops[..|ops| - 1];
      AlwaysExactIff(init);
      assert forall n :: 0 <= n <= |init| ==> ops[..n] == init[..n];
      RunsStayProper(init);
      if IsExact(AfterAll(init)) {
        StepKeepsExactIff(AfterAll(init), ops[|ops| - 1]);
      }
    }
  }

  /** Two services with one endpoint in common: unregistering one takes the endpoint from the other. */
  lemma SharedEndpointIsLost(a: string, b: string, e: Endpoint) returns (ops: seq<Op>)
    requires a != b
    ensures ops == [Register(a, [e], NoFault), Register(b, [e], NoFault), Unregister(b)]
    ensures AfterAll(ops).byService == map[a := [e]] && AfterAll(ops).endpoints == {}
  {
    ops := [Register(a, [e], NoFault), Register(b, [e], NoFault), Unregister(b)];
    assert ops[..2][..1] == ops[..1] && ops[..1][..0] == [];
    assert AfterAll(ops[..1]) == Serving({e}, map[a := [e]], {a});
    assert AfterAll(ops[..2]) == Serving({e}, map[a := [e], b := [e]], {a, b});
  }

  /** Unregistering a service at once takes back its accepted registration, and nothing more, exactly when none
      of its endpoints was served already. */
  lemma UnregisterUndoesRegister(s: Serving, op: Op)
    requires Proper(s) && IsAccepted(s, op)
    ensures After(After(s, op), Unregister(op.service)) == s <==> s.endpoints !! SetOf(op.list)
  {
    var s' := After(After(s, op), Unregister(op.service));
    assert s'.byService == s.byService && s'.leased == s.leased;
    assert s'.endpoints == s.endpoints - SetOf(op.list);
  }

  /** Until it is unregistered, a service the store once held a lease for is never registered again, whatever
      has become of the lease or of the registration that failed after it: no operation changes its list. */
  lemma {:induction false} LeasedServiceStaysAsItIs(before: seq<Op>, service: string, later: seq<Op>)
    requires service in AfterAll(before).leased && Unregister(service) !in later
    ensures service in AfterAll(before + later).leased
    ensures ListOf(AfterAll(before + later), service) == ListOf(AfterAll(before), service)
    ensures service in AfterAll(before + later).byService <==> service in AfterAll(before).byService
    decreases |later|
  {
    if later == [] {
      assert before + later == before;
    } else {
      var init := later[..|later| - 1];
      assert (before + later)[..|before + later| - 1] == before + init;
      LeasedServiceStaysAsItIs(before, service, init);
    }
  }
}
