/**
 A router's rule list: which rule decides a request, and what its error handlers make of a failed
 selection. Regular expressions are arbitrary predicates; what `Select` answers and what happens while a
 request is blocked are arbitrary too.
 */
module Routers {
  import opened Base
  import opened Text
  import opened Endpoints

  // ---------- matching ----------

  datatype Target = Target(uri: string, port: U32, headers: map<string, string>)

  datatype Matcher = Matcher(uri: string -> bool, port: U32, headers: Option<map<string, string -> bool>>)

  ghost predicate Matches(m: Matcher, target: Target) {
    && m.uri(target.uri)
    && (m.port != 0 ==> m.port == target.port)
    && (m.headers.Some? ==> forall k :: k in m.headers.value ==> HeaderMatches(m.headers.value[k], k, target))
  }

  predicate HeaderMatches(regex: string -> bool, k: string, target: Target) {
    k in target.headers && regex(target.headers[k])
  }

  method Match(m: Matcher, target: Target) returns (matched: bool)
    ensures matched <==> Matches(m, target)
    ensures matched <==>
            && m.uri(target.uri) && (m.port == 0 || m.port == target.port)
            && (m.headers.None? || forall k :: k in m.headers.value ==> k in target.headers && m.headers.value[k](target.headers[k]))
  {
    if !m.uri(target.uri) {
      return false;
    }
    if m.port != 0 && target.port != m.port {
      return false;
    }
    if m.headers.Some? {
      var todo := m.headers.value.Keys;
      while todo != {}
        invariant todo <= m.headers.value.Keys
        invariant forall k :: k in m.headers.value && k !in todo ==> HeaderMatches(m.headers.value[k], k, target)
      {
        var k :| k in todo;
        if !HeaderMatches(m.headers.value[k], k, target) {
          return false;
        }
        todo := todo - {k};
      }
    }
    return true;
  }

  // ---------- rules ----------

  datatype Error = Coded(code: int, message: string) | Uncoded(text: string)

  const CONTEXT_CANCELED := Coded(1001, "context canceled")
  const NO_ENDPOINT_AVAILABLE := Coded(1006, "no endpoint available")
  const ENDPOINT_UNAVAILABLE := Coded(1007, "bad endpoint")
  const NO_RULE_MATCHED := Coded(1008, "no rule matched")
  const NO_CUSTOM_ROUTE := Coded(1009, "no custom route")
  const BLOCK_TIMEOUT := Coded(1023, "block timeout")
  const ENDPOINT_RPS_LIMIT := Coded(1024, "endpoint rps limit")

  /** `errors.Is` between an error and one of the coded ones: the codes decide. */
  predicate Is(e: Error, coded: Error)
    requires coded.Coded?
  {
    e.Coded? && e.code == coded.code
  }

  datatype RuleError = Default | NoEndpoint | Unavailable | RpsLimit

  function RuleErrorOf(e: Error): RuleError {
    if Is(e, NO_ENDPOINT_AVAILABLE) || Is(e, NO_CUSTOM_ROUTE) then NoEndpoint
    else if Is(e, ENDPOINT_UNAVAILABLE) then Unavailable
    else if Is(e, ENDPOINT_RPS_LIMIT) then RpsLimit
    else Default
  }

  /** `Unhandled` is `default` or any other text: the switch has no case for it. */
  datatype Solution = Pass | Throw | Panic | Retry | Block | Unhandled

  datatype Handler = Handler(solution: Solution, times: Option<U32>, code: Option<U32>, message: Option<string>)

  function TimesOf(h: Handler): nat {
    match h.times
    case Some(times) => times
    case None => 3
  }

  function Replacement(h: Handler, e: Error): Error {
    if h.code.None? && h.message.None? then e
    else Coded(if h.code.Some? then h.code.value else 0, if h.message.Some? then h.message.value else "")
  }

  datatype Rule = Rule(matchers: seq<Matcher>, selector: string, catch: map<RuleError, Handler>)

  ghost predicate RuleMatches(r: Rule, target: Target) {
    exists i :: 0 <= i < |r.matchers| && Matches(r.matchers[i], target)
  }

  method MatchRule(r: Rule, target: Target) returns (matched: bool)
    ensures matched <==> RuleMatches(r, target)
  {
    for i := 0 to |r.matchers|
      invariant forall j :: 0 <= j < i ==> !Matches(r.matchers[j], target)
    {
      var one := Match(r.matchers[i], target);
      if one {
        return true;
      }
    }
    return false;
  }

  // ---------- what selecting and waiting may answer ----------

  type Headers = map<string, string>

  datatype Selection = Selection(endpoint: Option<Endpoint>, headers: Option<Headers>, error: Option<Error>)

  /** What a blocked request notices before its timer fires. */
  datatype Event = Canceled | Updated(endpoints: set<Endpoint>)

  datatype SelectorInfo = SelectorInfo(service: string, port: U32)

  datatype Env = Env(router: string, selectors: map<string, SelectorInfo>, services: set<string>)

  /** A rule with the answers of the selections made for it, in order, and what would happen in a block. */
  datatype Candidate = Candidate(rule: Rule, answers: nat -> Selection, events: seq<Event>)

  datatype Answer =
    | Routed(service: string, endpoint: Endpoint, port: U32, headers: Option<Headers>)
    | Failed(error: Error)
    | Panicked(error: Error)
    | NilDereference

  datatype Verdict = Skip | Decide(answer: Answer)

  // ---------- the rule by rule specification ----------

  /** How many retries are made, the next one being selection `n`: up to the first success. */
  function Retries(answers: nat -> Selection, n: nat, left: nat): (made: nat)
    ensures made <= left
    decreases left
  {
    if left == 0 then 0
    else if answers(n).error.None? then 1
    else 1 + Retries(answers, n + 1, left - 1)
  }

  datatype Blocked = Released | GaveUp(error: Error)

  function WaitFor(events: seq<Event>, endpoint: Option<Endpoint>): Blocked {
    if events == [] then GaveUp(BLOCK_TIMEOUT)
    else if events[0].Canceled? then GaveUp(CONTEXT_CANCELED)
    else if endpoint.Some? && endpoint.value in events[0].endpoints then Released
    else WaitFor(events[1..], endpoint)
  }

  function Success(env: Env, info: SelectorInfo, s: Selection): Answer {
    match s.endpoint
    case None => NilDereference
    case Some(e) =>
      Routed(info.service, e, if e.port != 0 then e.port else info.port,
             match s.headers
             case None => None
             case Some(h) => Some(h["yapr-router" := env.router]["yapr-endpoint" := ToText(e)]))
  }

  /** The handler of a failed first selection. */
  function HandlerOf(r: Rule, e: Error): Option<Handler> {
    if RuleErrorOf(e) in r.catch then Some(r.catch[RuleErrorOf(e)]) else None
  }

  predicate RetryAfterFailure(c: Candidate) {
    var first := c.answers(0).error;
    first.Some? && HandlerOf(c.rule, first.value).Some? && HandlerOf(c.rule, first.value).value.solution.Retry?
  }

  function RetryTimes(c: Candidate): nat {
    if RetryAfterFailure(c) then TimesOf(HandlerOf(c.rule, c.answers(0).error.value).value) else 0
  }

  /** The number of the last selection made for a rule that matches. */
  function LastSelection(c: Candidate): nat {
    Retries(c.answers, 1, RetryTimes(c))
  }

  function Handled(c: Candidate, env: Env, info: SelectorInfo, e: Error, h: Handler): Verdict {
    match h.solution
    case Pass => Skip
    case Throw => Decide(Failed(Replacement(h, e)))
    case Panic => Decide(Panicked(Replacement(h, e)))
    case Retry => Decide(Success(env, info, c.answers(LastSelection(c))))
    case Block =>
      if info.service !in env.services then Skip
      else (match WaitFor(c.events, c.answers(0).endpoint)
            case Released => Decide(Success(env, info, c.answers(0)))
            case GaveUp(error) => Decide(Failed(error)))
    case Unhandled => Decide(Success(env, info, c.answers(0)))
  }

  ghost function VerdictOf(c: Candidate, target: Target, env: Env): Verdict {
    if !RuleMatches(c.rule, target) then Skip
    else if c.rule.selector !in env.selectors then Decide(NilDereference)
    else
      var info := env.selectors[c.rule.selector];
      match c.answers(0).error
      case None => Decide(Success(env, info, c.answers(0)))
      case Some(e) =>
        match HandlerOf(c.rule, e)
        case None => Decide(Failed(e))
        case Some(h) => Handled(c, env, info, e, h)
  }

  ghost function SelectionsFor(c: Candidate, target: Target, env: Env): nat {
    if RuleMatches(c.rule, target) && c.rule.selector in env.selectors then 1 + LastSelection(c) else 0
  }

  ghost function AnswerOf(cs: seq<Candidate>, target: Target, env: Env): Answer {
    if cs == [] then Failed(NO_RULE_MATCHED)
    else
      match VerdictOf(cs[0], target, env)
      case Skip => AnswerOf(cs[1..], target, env)
      case Decide(answer) => answer
  }

  // ---------- the router ----------

  /** Whom `Route` asks for endpoints: every selection for a rule has its own answer. */
  class Selecting {
    const answers: nat -> nat -> Selection
    var made: multiset<nat>

    constructor (answers: nat -> nat -> Selection)
      ensures this.answers == answers && made == multiset{}
    {
      this.answers, made := answers, multiset{};
    }

    method Select(rule: nat) returns (s: Selection)
      modifies this`made
      ensures s == answers(rule)(old(made[rule])) && made == old(made) + multiset{rule}
    {
      s := answers(rule)(made[rule]);
      made := made + multiset{rule};
    }
  }

  /** The retry loop: up to `times` further selections, until one succeeds. */
  method RetrySelection(selecting: Selecting, i: nat, first: Selection, times: nat) returns (last: Selection)
    requires selecting.made[i] == 1 && first == selecting.answers(i)(0)
    modifies selecting
    ensures var k := Retries(selecting.answers(i), 1, times);
            last == selecting.answers(i)(k) && selecting.made == old(selecting.made)[i := 1 + k]
  {
    last := first;
    var n := 0;
    while n < times
      invariant n <= times && selecting.made == old(selecting.made)[i := 1 + n]
      invariant last == selecting.answers(i)(n)
      invariant Retries(selecting.answers(i), 1, times) == n + Retries(selecting.answers(i), 1 + n, times - n)
    {
      last := selecting.Select(i);
      n := n + 1;
      if last.error.None? {
        return;
      }
    }
  }

  method WaitForUpdate(events: seq<Event>, endpoint: Option<Endpoint>) returns (blocked: Blocked)
    ensures blocked == WaitFor(events, endpoint)
  {
    for k := 0 to |events|
      invariant WaitFor(events, endpoint) == WaitFor(events[k..], endpoint)
    {
      match events[k]
      case Canceled => return GaveUp(CONTEXT_CANCELED);
      case Updated(endpoints) =>
        if endpoint.Some? && endpoint.value in endpoints {
          return Released;
        }
    }
    return GaveUp(BLOCK_TIMEOUT);
  }

  /** What a rule's handler makes of a failed first selection. */
  method Handle(c: Candidate, i: nat, env: Env, selecting: Selecting, first: Selection, h: Handler) returns (v: Verdict)
    requires c.answers == selecting.answers(i) && first == c.answers(0) && first.error.Some?
    requires HandlerOf(c.rule, first.error.value) == Some(h)
    requires c.rule.selector in env.selectors && selecting.made[i] == 1
    modifies selecting
    ensures v == Handled(c, env, env.selectors[c.rule.selector], first.error.value, h)
    ensures selecting.made == old(selecting.made)[i := 1 + LastSelection(c)]
  {
    var info, e := env.selectors[c.rule.selector], first.error.value;
    match h.solution
    case Pass =>
      return Skip;
    case Throw =>
      return Decide(Failed(Replacement(h, e)));
    case Panic =>
      return Decide(Panicked(Replacement(h, e)));
    case Retry =>
      var last := RetrySelection(selecting, i, first, TimesOf(h));
      return Decide(Success(env, info, last));
    case Block =>
      if info.service !in env.services {
        return Skip;
      }
      var blocked := WaitForUpdate(c.events, first.endpoint);
      if blocked.GaveUp? {
        return Decide(Failed(blocked.error));
      }
      return Decide(Success(env, info, first));
    case Unhandled =>
      return Decide(Success(env, info, first));
  }

  /** One turn of the rule loop. */
  method TryRule(c: Candidate, i: nat, target: Target, env: Env, selecting: Selecting) returns (v: Verdict)
    requires c.answers == selecting.answers(i) && selecting.made[i] == 0
    modifies selecting
    ensures v == VerdictOf(c, target, env)
    ensures selecting.made == old(selecting.made)[i := SelectionsFor(c, target, env)]
  {
    var matched := MatchRule(c.rule, target);
    if !matched {
      return Skip;
    }
    if c.rule.selector !in env.selectors {
      return Decide(NilDereference);
    }
    var first := selecting.Select(i);
    if first.error.None? {
      return Decide(Success(env, env.selectors[c.rule.selector], first));
    }
    var handler := HandlerOf(c.rule, first.error.value);
    match handler
    case None => return Decide(Failed(first.error.value));
    case Some(h) => v := Handle(c, i, env, selecting, first, h);
  }

  ghost predicate AllSkip(cs: seq<Candidate>, target: Target, env: Env) {
    forall i :: 0 <= i < |cs| ==> VerdictOf(cs[i], target, env).Skip?
  }

  /** `i` is the first rule that decides. */
  ghost predicate Decides(cs: seq<Candidate>, target: Target, env: Env, i: nat) {
    i < |cs| && AllSkip(cs[..i], target, env) && VerdictOf(cs[i], target, env).Decide?
  }

  /** The first `n` rules have made their selections, the others none. */
  ghost predicate Accounted(made: multiset<nat>, cs: seq<Candidate>, target: Target, env: Env, n: nat) {
    forall j: nat :: j < |cs| ==> made[j] == if j < n then SelectionsFor(cs[j], target, env) else 0
  }

  lemma OneMoreSkip(cs: seq<Candidate>, target: Target, env: Env, i: nat)
    requires i < |cs| && AllSkip(cs[..i], target, env) && VerdictOf(cs[i], target, env).Skip?
    ensures AllSkip(cs[..i + 1], target, env)
  {
    assert cs[..i + 1] == cs[..i] + [cs[i]];
  }

  lemma OneMoreTurn(cs: seq<Candidate>, target: Target, env: Env, i: nat)
    requires i < |cs|
    ensures AnswerOf(cs[i..], target, env) == match VerdictOf(cs[i], target, env) { case Skip => AnswerOf(cs[i + 1..], target, env) case Decide(answer) => answer }
  {
    assert cs[i..][0] == cs[i] && cs[i..][1..] == cs[i + 1..];
  }

  /** The answer is the one the rule by rule specification gives; the selections are those of the rules up
      to and including the one that decides. */
  method Route(cs: seq<Candidate>, target: Target, env: Env, selecting: Selecting) returns (answer: Answer)
    requires selecting.made == multiset{}
    requires forall i: nat :: i < |cs| ==> cs[i].answers == selecting.answers(i)
    modifies selecting
    ensures answer == AnswerOf(cs, target, env)
    ensures AllSkip(cs, target, env) ==> Accounted(selecting.made, cs, target, env, |cs|)
    ensures !AllSkip(cs, target, env) ==> exists i: nat :: Decides(cs, target, env, i) && Accounted(selecting.made, cs, target, env, i + 1)
  {
    assert cs[0..] == cs;
    for i := 0 to |cs|
      invariant AnswerOf(cs, target, env) == AnswerOf(cs[i..], target, env)
      invariant AllSkip(cs[..i], target, env)
      invariant Accounted(selecting.made, cs, target, env, i)
    {
      var v := TryRule(cs[i], i, target, env, selecting);
      OneMoreTurn(cs, target, env, i);
      if v.Decide? {
        assert Decides(cs, target, env, i);
        return v.answer;
      }
      OneMoreSkip(cs, target, env, i);
    }
    assert cs[..|cs|] == cs;
    return Failed(NO_RULE_MATCHED);
  }

  // ---------- first match ----------

  lemma {:induction false} SkippedPrefix(a: seq<Candidate>, b: seq<Candidate>, target: Target, env: Env)
    requires AllSkip(a, target, env)
    ensures AnswerOf(a + b, target, env) == AnswerOf(b, target, env)
  {
    if a == [] {
      assert a + b == b;
    } else {
      SkippedPrefix(a[1..], b, target, env);
      assert (a + b)[1..] == a[1..] + b;
    }
  }

  /** The first deciding rule gives the answer, whatever the rules after it are; with none, no rule matched. */
  lemma FirstDecidingRuleAnswers(cs: seq<Candidate>, i: nat, others: seq<Candidate>, target: Target, env: Env)
    ensures Decides(cs, target, env, i) ==> AnswerOf(cs[..i + 1] + others, target, env) == VerdictOf(cs[i], target, env).answer
    ensures AllSkip(cs, target, env) ==> AnswerOf(cs, target, env) == Failed(NO_RULE_MATCHED)
  {
    if Decides(cs, target, env, i) {
      SkippedPrefix(cs[..i], [cs[i]] + others, target, env);
      assert cs[..i + 1] + others == cs[..i] + ([cs[i]] + others);
    }
    if AllSkip(cs, target, env) {
      SkippedPrefix(cs, [], target, env);
      assert cs + [] == cs;
    }
  }

  /** A skipped rule contributes nothing: without it, the answer is the same. */
  lemma {:induction false} SkippedRuleContributesNothing(a: seq<Candidate>, c: Candidate, b: seq<Candidate>, target: Target, env: Env)
    requires VerdictOf(c, target, env).Skip?
    ensures AnswerOf(a + [c] + b, target, env) == AnswerOf(a + b, target, env)
  {
    if a == [] {
      assert ([c] + b)[1..] == b && a + b == b && a + [c] + b == [c] + b;
    } else {
      assert (a + [c] + b)[1..] == a[1..] + [c] + b && (a + b)[1..] == a[1..] + b;
      SkippedRuleContributesNothing(a[1..], c, b, target, env);
    }
  }

  /** The rule does not match, or its selection fails and its handler passes or blocks on an unknown service. */
  ghost predicate PassedOver(c: Candidate, target: Target, env: Env) {
    RuleMatches(c.rule, target) ==>
      && c.rule.selector in env.selectors && c.answers(0).error.Some?
      && var h := HandlerOf(c.rule, c.answers(0).error.value);
      && h.Some?
      && (h.value.solution.Pass? || (h.value.solution.Block? && env.selectors[c.rule.selector].service !in env.services))
  }

  lemma SkippedIffPassedOver(c: Candidate, target: Target, env: Env)
    ensures VerdictOf(c, target, env).Skip? <==> PassedOver(c, target, env)
  {
  }

  // ---------- retries ----------

  lemma {:induction false} RetriesStopAtSuccess(answers: nat -> Selection, n: nat, left: nat)
    ensures var last := n + Retries(answers, n, left);
            && (forall j: nat :: n <= j < last - 1 ==> answers(j).error.Some?)
            && (last > n && last - 1 < n + left - 1 ==> answers(last - 1).error.None?)
    decreases left
  {
    if left > 0 && answers(n).error.Some? {
      RetriesStopAtSuccess(answers, n + 1, left - 1);
    }
  }

  /** A rule makes at most `1 + times` selections, with `times` zero unless a retry handler caught the first
      failure; every selection but the last failed, and the last one failed only if none is left. */
  lemma RetryBound(c: Candidate, target: Target, env: Env)
    ensures SelectionsFor(c, target, env) <= 1 + RetryTimes(c)
    ensures RetryAfterFailure(c) ==>
              && (forall j: nat :: j < LastSelection(c) ==> c.answers(j).error.Some?)
              && (c.answers(LastSelection(c)).error.Some? ==> LastSelection(c) == RetryTimes(c))
  {
    RetriesStopAtSuccess(c.answers, 1, RetryTimes(c));
  }

  // ---------- answers that look like a success ----------

  lemma {:induction false} ReleasedIff(events: seq<Event>, endpoint: Option<Endpoint>)
    ensures WaitFor(events, endpoint).Released? <==>
            exists k :: 0 <= k < |events| && Releases(events[k], endpoint) && Canceled !in events[..k]
  {
    if events != [] {
      ReleasedIff(events[1..], endpoint);
      if k :| 0 <= k < |events[1..]| && Releases(events[1..][k], endpoint) && Canceled !in events[1..][..k] {
        assert events[..k + 1] == [events[0]] + events[1..][..k];
        assert WaitFor(events[1..], endpoint).Released?;
      }
      if k :| 0 < k < |events| && Releases(events[k], endpoint) && Canceled !in events[..k] {
        assert events[..k] == [events[0]] + events[1..][..k - 1];
        assert events[1..][k - 1] == events[k];
        assert Canceled !in events[1..][..k - 1];
      }
    }
  }

  predicate Releases(event: Event, endpoint: Option<Endpoint>) {
    event.Updated? && endpoint.Some? && endpoint.value in event.endpoints
  }

  /** The selection whose endpoint a routed answer carries. */
  function Used(c: Candidate): Selection {
    c.answers(LastSelection(c))
  }

  /** A rule answers with the endpoint of a failed selection exactly when the first selection failed and its
      handler retried without one success, has no case in the switch, or blocked until an update registered
      the endpoint before any cancellation; and that selection named an endpoint all the same. */
  lemma RoutedDespiteErrorIff(c: Candidate, target: Target, env: Env)
    requires RuleMatches(c.rule, target) && c.rule.selector in env.selectors
    ensures var v := VerdictOf(c, target, env);
            v.Decide? && v.answer.Routed? && Used(c).error.Some? <==>
            && c.answers(0).error.Some?
            && var h := HandlerOf(c.rule, c.answers(0).error.value);
            && h.Some?
            && (match h.value.solution
                case Retry =>
                  && (forall j: nat :: j <= TimesOf(h.value) ==> c.answers(j).error.Some?)
                  && c.answers(TimesOf(h.value)).endpoint.Some?
                case Unhandled => c.answers(0).endpoint.Some?
                case Block =>
                  && env.selectors[c.rule.selector].service in env.services
                  && exists k :: 0 <= k < |c.events| && Releases(c.events[k], c.answers(0).endpoint) && Canceled !in c.events[..k]
                case _ => false)
  {
    ReleasedIff(c.events, c.answers(0).endpoint);
    if RetryAfterFailure(c) {
      RetryBound(c, target, env);
      AllFailedIff(c.answers, 1, RetryTimes(c));
    }
  }

  /** The last of the retries failed exactly when all of them did. */
  lemma {:induction false} AllFailedIff(answers: nat -> Selection, n: nat, left: nat)
    requires n > 0 && answers(n - 1).error.Some?
    ensures var last := n - 1 + Retries(answers, n, left);
            answers(last).error.Some? <==> forall j: nat :: n <= j < n + left ==> answers(j).error.Some?
    ensures (forall j: nat :: n <= j < n + left ==> answers(j).error.Some?) ==> Retries(answers, n, left) == left
    decreases left
  {
    if left > 0 && answers(n).error.Some? {
      AllFailedIff(answers, n + 1, left - 1);
    }
  }

  lemma RoutedIsLastSelected(c: Candidate, target: Target, env: Env)
    requires VerdictOf(c, target, env).Decide? && VerdictOf(c, target, env).answer.Routed?
    ensures RuleMatches(c.rule, target) && Used(c).endpoint == Some(VerdictOf(c, target, env).answer.endpoint)
  {
  }

  /** A routed answer carries the endpoint of the last selection made for some matching rule; every matching
      rule before it failed its selection and was passed over. */
  lemma {:induction false} RoutedAnswerComesFrom(cs: seq<Candidate>, target: Target, env: Env) returns (i: nat)
    requires AnswerOf(cs, target, env).Routed?
    ensures i < |cs| && RuleMatches(cs[i].rule, target) && Used(cs[i]).endpoint == Some(AnswerOf(cs, target, env).endpoint)
    ensures forall j :: 0 <= j < i ==> PassedOver(cs[j], target, env)
  {
    match VerdictOf(cs[0], target, env)
    case Decide(_) =>
      RoutedIsLastSelected(cs[0], target, env);
      i := 0;
    case Skip =>
      var k := RoutedAnswerComesFrom(cs[1..], target, env);
      i := k + 1;
      SkippedIffPassedOver(cs[0], target, env);
      assert forall j :: 0 < j < i ==> cs[j] == cs[1..][j - 1];
  }

  // ---------- what a matching rule makes of its selections, written out ----------

  /** The handler a rule has for an error: the code decides under which name. */
  function Caught(catch: map<RuleError, Handler>, e: Error): Option<Handler> {
    var name :=
      match e
      case Uncoded(_) => Default
      case Coded(code, _) =>
        if code == 1006 || code == 1009 then NoEndpoint
        else if code == 1007 then Unavailable
        else if code == 1024 then RpsLimit
        else Default;
    if name in catch then Some(catch[name]) else None
  }

  lemma HandlerIsCaught(r: Rule, e: Error)
    ensures HandlerOf(r, e) == Caught(r.catch, e)
  {
  }

  /** A success carries the selection's endpoint, the service of the selector, the endpoint's own port unless it is
      zero, and the selection's headers, if it has any, with the router and the endpoint added. */
  ghost predicate IsRouted(a: Answer, router: string, info: SelectorInfo, s: Selection) {
    match s.endpoint
    case None => a.NilDereference?
    case Some(e) =>
      && a.Routed? && a.service == info.service && a.endpoint == e
      && a.port == (if e.port == 0 then info.port else e.port)
      && match s.headers
         case None => a.headers.None?
         case Some(h) =>
           a.headers == Some(h + map["yapr-router" := router, "yapr-endpoint" := e.ip + "#" + e.pod + "#" + Itoa(e.port)])
  }

  lemma SuccessIsRouted(env: Env, info: SelectorInfo, s: Selection)
    ensures IsRouted(Success(env, info, s), env.router, info, s)
  {
    if s.endpoint.Some? {
      var e := s.endpoint.value;
      var text := e.ip + "#" + e.pod + "#" + Itoa(e.port);
      assert text == ToText(e);
      if s.headers.Some? {
        var h := s.headers.value;
        assert h["yapr-router" := env.router]["yapr-endpoint" := text] == h + map["yapr-router" := env.router, "yapr-endpoint" := text];
      }
    }
  }

  /** The error that is thrown: the failure itself, unless the handler names a code or a message; the other of the
      two is then 0 or empty. */
  ghost predicate IsThrown(thrown: Error, h: Handler, e: Error) {
    match (h.code, h.message)
    case (None, None) => thrown == e
    case (Some(code), None) => thrown == Coded(code, "")
    case (None, Some(message)) => thrown == Coded(0, message)
    case (Some(code), Some(message)) => thrown == Coded(code, message)
  }

  /** Selection `k` is the one the retries end with: all before it failed, and it succeeded or was the last. */
  ghost predicate EndsWith(answers: nat -> Selection, times: nat, k: nat) {
    k <= times && (forall j: nat :: j < k ==> answers(j).error.Some?) && (k == times || answers(k).error.None?)
  }

  lemma RetriesEndWith(answers: nat -> Selection, times: nat)
    requires answers(0).error.Some?
    ensures EndsWith(answers, times, Retries(answers, 1, times))
  {
    RetriesStopAtSuccess(answers, 1, times);
  }

  /** A blocked request is released, canceled, or gives up when its time is over. */
  lemma {:induction false} WaitForIs(events: seq<Event>, endpoint: Option<Endpoint>)
    ensures WaitFor(events, endpoint).GaveUp? ==>
              WaitFor(events, endpoint).error == if Canceled in events then Coded(1001, "context canceled") else Coded(1023, "block timeout")
  {
    if events != [] {
      WaitForIs(events[1..], endpoint);
      assert events == [events[0]] + events[1..];
    }
  }

  ghost predicate IsReleased(events: seq<Event>, endpoint: Option<Endpoint>) {
    exists k :: 0 <= k < |events| && Releases(events[k], endpoint) && Canceled !in events[..k]
  }

  /** What a handler makes of a failure; a rule that is passed over leaves the answer to the rules after it. */
  ghost predicate IsHandled(a: Answer, c: Candidate, env: Env, info: SelectorInfo, e: Error, h: Handler, next: Answer) {
    match h.solution
    case Pass => a == next
    case Throw => a.Failed? && IsThrown(a.error, h, e)
    case Panic => a.Panicked? && IsThrown(a.error, h, e)
    case Retry =>
      var times := match h.times { case Some(n) => n case None => 3 };
      exists k: nat :: EndsWith(c.answers, times, k) && IsRouted(a, env.router, info, c.answers(k))
    case Block =>
      if info.service !in env.services then a == next
      else if IsReleased(c.events, c.answers(0).endpoint) then IsRouted(a, env.router, info, c.answers(0))
      else if Canceled in c.events then a == Failed(Coded(1001, "context canceled"))
      else a == Failed(Coded(1023, "block timeout"))
    case Unhandled => IsRouted(a, env.router, info, c.answers(0))
  }

  lemma HandledIs(c: Candidate, env: Env, info: SelectorInfo, e: Error, h: Handler, next: Answer)
    requires c.answers(0).error == Some(e) && HandlerOf(c.rule, e) == Some(h)
    ensures var v := Handled(c, env, info, e, h);
            IsHandled(match v { case Skip => next case Decide(a) => a }, c, env, info, e, h, next)
  {
    SuccessIsRouted(env, info, c.answers(0));
    SuccessIsRouted(env, info, c.answers(LastSelection(c)));
    RetriesEndWith(c.answers, RetryTimes(c));
    ReleasedIff(c.events, c.answers(0).endpoint);
    WaitForIs(c.events, c.answers(0).endpoint);
  }

  /** The answer when a rule matches, whatever the rules after it are: the endpoint of a selection that succeeds, the
      error of one that fails without a handler, or what the handler for its code makes of it. */
  lemma MatchingRuleAnswers(c: Candidate, others: seq<Candidate>, target: Target, env: Env)
    requires RuleMatches(c.rule, target) && c.rule.selector in env.selectors
    ensures var a, info := AnswerOf([c] + others, target, env), env.selectors[c.rule.selector];
            match c.answers(0).error
            case None => IsRouted(a, env.router, info, c.answers(0))
            case Some(e) =>
              match Caught(c.rule.catch, e)
              case None => a == Failed(e)
              case Some(h) => IsHandled(a, c, env, info, e, h, AnswerOf(others, target, env))
  {
    var info := env.selectors[c.rule.selector];
    assert ([c] + others)[1..] == others;
    SuccessIsRouted(env, info, c.answers(0));
    if c.answers(0).error.Some? {
      var e := c.answers(0).error.value;
      HandlerIsCaught(c.rule, e);
      if HandlerOf(c.rule, e).Some? {
        HandledIs(c, env, info, e, HandlerOf(c.rule, e).value, AnswerOf(others, target, env));
      }
    }
  }

  /** The rest of the cases: no rule, a rule that does not match, and one whose selector is unknown. */
  lemma OtherRulesAnswer(c: Candidate, others: seq<Candidate>, target: Target, env: Env)
    ensures AnswerOf([], target, env) == Failed(Coded(1008, "no rule matched"))
    ensures !RuleMatches(c.rule, target) ==> AnswerOf([c] + others, target, env) == AnswerOf(others, target, env)
    ensures RuleMatches(c.rule, target) && c.rule.selector !in env.selectors ==> AnswerOf([c] + others, target, env) == NilDereference
  {
    assert ([c] + others)[1..] == others;
  }

  // ---------- the router's own name ----------

  datatype ParsedTarget = Parsed(name: string, port: U32) | BadFormat | BadPort

  /** `name` or `name:port`; the port is 9090 when it is left out. */
  function ParseTarget(target: string): ParsedTarget {
    var splits := Split(target, ':');
    if |splits| > 2 then BadFormat
    else if |splits| == 1 then Parsed(target, 9090)
    else
      match ParseDigits(splits[1])
      case None => BadPort
      case Some(port) => if port < TWO_TO_THE_32 then Parsed(splits[0], port) else BadPort
  }

  /** A name and port are read back exactly when the name holds no colon. */
  lemma TargetRoundTrip(name: string, port: U32)
    ensures ParseTarget(name + ":" + Itoa(port)) == Parsed(name, port) <==> ':' !in name
    ensures ParseTarget(name) == Parsed(name, 9090) <==> ':' !in name
  {
    DigitsOfItoa(port);
    SplitLengthOfField(name, ':');
    SplitLengthOfField(Itoa(port), ':');
    JoinOfSplit(name, ':');
    SplitLength(name, Itoa(port), ':');
    if ':' !in name {
      SplitAtSeparator(name, Itoa(port), ':');
      SplitWithoutSeparator(Itoa(port), ':');
    }
  }

  /** Anything else is refused: more than one colon, or a port that is no decimal number below 2^32. */
  lemma TargetErrors(name: string, rest: string)
    requires ':' !in name
    ensures ':' in rest ==> ParseTarget(name + ":" + rest) == BadFormat
    ensures ':' !in rest && (rest == [] || exists c :: c in rest && !('0' <= c <= '9')) ==> ParseTarget(name + ":" + rest) == BadPort
    ensures forall n: nat :: n >= 0x1_0000_0000 && rest == Itoa(n) ==> ParseTarget(name + ":" + rest) == BadPort
  {
    SplitLength(name, rest, ':');
    SplitLengthOfField(name, ':');
    SplitLengthOfField(rest, ':');
    SplitAtSeparator(name, rest, ':');
    if ':' !in rest {
      SplitWithoutSeparator(rest, ':');
      ParseDigitsIff(rest);
    }
    forall n: nat | n >= 0x1_0000_0000 && rest == Itoa(n) ensures ParseTarget(name + ":" + rest) == BadPort {
      DigitsOfItoa(n);
    }
  }
}
