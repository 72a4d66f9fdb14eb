/**
 The load reports of a server: for each selector and endpoint, a counter of the requests in flight, and
 at most one sleeping reporter, guarded by a mark. Every step below is one atomic action of a request or
 of a reporter, for one fixed counter; loading the counter and sending it are separate steps.
 */
module Reporter {
  import opened Base

  /**
   `added`, `open` and `subtracted` count the requests that have been counted but have not yet checked
   the mark, those whose response callback has not run, and those whose callback has subtracted but not
   yet checked the mark. `sleeping` and `woken` count the reporters before and after their delete of the
   mark; `loaded` holds the values of reporters that have not sent them. `reported` is the value sent last,
   which the store holds, and `newest` the value loaded last, which nobody keeps.
   */
  datatype State = State(
    counter: int,
    mark: bool,
    added: nat,
    open: nat,
    subtracted: nat,
    sleeping: nat,
    woken: nat,
    loaded: seq<U32>,
    reported: Option<U32>,
    newest: Option<U32>)

  const START := State(0, false, 0, 0, 0, 0, 0, [], None, None)

  predicate IsStart(s: State) {
    && s.counter == 0 && !s.mark && s.added == 0 && s.open == 0 && s.subtracted == 0 && s.sleeping == 0 && s.woken == 0
    && s.loaded == [] && s.reported.None? && s.newest.None?
  }

  datatype Step = Receive | CheckReceived | Respond | CheckResponded | Delete | Load | Send(i: nat)

  predicate Enabled(s: State, step: Step) {
    match step
    case Receive => true
    case CheckReceived => s.added > 0
    case Respond => s.open > 0
    case CheckResponded => s.subtracted > 0
    case Delete => s.sleeping > 0
    case Load => s.woken > 0
    case Send(i) => i < |s.loaded|
  }

  /** `LoadOrStore` on the mark; whoever stores it starts a reporter. */
  function CheckUpdate(s: State): State {
    if s.mark then s else s.(mark := true, sleeping := s.sleeping + 1)
  }

  function Next(s: State, step: Step): State
    requires Enabled(s, step)
  {
    match step
    case Receive => s.(counter := ToInt32(s.counter + 1), added := s.added + 1)
    case CheckReceived => CheckUpdate(s.(added := s.added - 1, open := s.open + 1))
    case Respond => s.(counter := ToInt32(s.counter - 1), open := s.open - 1, subtracted := s.subtracted + 1)
    case CheckResponded => CheckUpdate(s.(subtracted := s.subtracted - 1))
    case Delete => s.(mark := false, sleeping := s.sleeping - 1, woken := s.woken + 1)
    case Load => s.(woken := s.woken - 1, loaded := s.loaded + [ToU32(s.counter)], newest := Some(ToU32(s.counter)))
    case Send(i) => s.(loaded := s.loaded[..i] + s.loaded[i + 1..], reported := Some(s.loaded[i]))
  }

  /** The counter and the mark as the server keeps them. */
  class Counter {
    var counter: int
    var mark: bool

    constructor ()
      ensures Shows(START)
    {
      counter, mark := 0, false;
    }

    predicate Shows(s: State)
      reads this
    {
      counter == s.counter && mark == s.mark
    }

    method Add(delta: int)
      modifies this`counter
      ensures counter == ToInt32(old(counter) + delta)
      ensures forall s: State :: delta == 1 && old(Shows(s)) ==> Shows(Next(s, Receive))
      ensures forall s: State :: delta == -1 && Enabled(s, Respond) && old(Shows(s)) ==> Shows(Next(s, Respond))
    {
      counter := ToInt32(counter + delta);
    }

    /** Whether a reporter must be started. */
    method Check() returns (start: bool)
      modifies this`mark
      ensures mark && start == !old(mark)
      ensures forall s: State :: old(Shows(s)) ==> Shows(CheckUpdate(s)) && CheckUpdate(s).sleeping == s.sleeping + (if start then 1 else 0)
    {
      start := !mark;
      if start {
        mark := true;
      }
    }

    /** The reporter's delete, made when its sleep is over. */
    method ClearMark()
      modifies this`mark
      ensures !mark
      ensures forall s: State :: Enabled(s, Delete) && old(Shows(s)) ==> Shows(Next(s, Delete))
    {
      mark := false;
    }

    method LoadCounter() returns (value: U32)
      ensures forall s: State :: Enabled(s, Load) && Shows(s) ==> Next(s, Load).loaded == s.loaded + [value] && Next(s, Load).newest == Some(value)
    {
      value := ToU32(counter);
    }
  }

  /** Requests received whose response callback has not run. */
  function InFlight(s: State): nat {
    s.added + s.open
  }

  /** A report is still owed: the mark is set, a reporter is past its delete, or a request is between
      its change of the counter and its check. */
  predicate ReportOwed(s: State) {
    s.mark || s.woken > 0 || s.added > 0 || s.subtracted > 0
  }

  /** Whatever the order of the sends: the counter counts, a reporter sleeps exactly while the mark is set,
      and unless a report is owed, the value loaded last is the count. */
  predicate Inv(s: State) {
    && s.counter == ToInt32(InFlight(s))
    && s.sleeping == (if s.mark then 1 else 0)
    && (ReportOwed(s) || s.newest == Some(ToU32(InFlight(s))) || (s.newest.None? && InFlight(s) == 0))
  }

  lemma StartIsQuiet(s: State)
    requires IsStart(s)
    ensures Inv(s) && InFlight(s) == 0
  {
    SmallIsKept(0);
  }

  lemma WrappingAdd(n: int, delta: int)
    ensures ToInt32(ToInt32(n) + delta) == ToInt32(n + delta)
  {
  }

  lemma StepKeepsInv(s: State, step: Step)
    requires Inv(s) && Enabled(s, step)
    ensures Inv(Next(s, step))
    ensures InFlight(Next(s, step)) == InFlight(s) + Received([step]) - Responded([step])
  {
    WrappingAdd(InFlight(s), 1);
    WrappingAdd(InFlight(s), -1);
    KeepsLowBits(InFlight(s));
  }

  ghost predicate IsRun(s: State, steps: seq<Step>)
    decreases |steps|
  {
    steps == [] || (Enabled(s, steps[0]) && IsRun(Next(s, steps[0]), steps[1..]))
  }

  ghost function After(s: State, steps: seq<Step>): State
    requires IsRun(s, steps)
    decreases |steps|
  {
    if steps == [] then s else After(Next(s, steps[0]), steps[1..])
  }

  function Received(steps: seq<Step>): nat {
    if steps == [] then 0 else (if steps[0].Receive? then 1 else 0) + Received(steps[1..])
  }

  function Responded(steps: seq<Step>): nat {
    if steps == [] then 0 else (if steps[0].Respond? then 1 else 0) + Responded(steps[1..])
  }

  lemma {:induction false} RunKeepsInv(s: State, steps: seq<Step>)
    requires Inv(s) && IsRun(s, steps)
    ensures Inv(After(s, steps))
    ensures InFlight(After(s, steps)) == InFlight(s) + Received(steps) - Responded(steps)
    decreases |steps|
  {
    if steps != [] {
      StepKeepsInv(s, steps[0]);
      RunKeepsInv(Next(s, steps[0]), steps[1..]);
    }
  }

  /** A report is owed, or one was loaded. */
  predicate Used(s: State) {
    ReportOwed(s) || s.newest.Some?
  }

  lemma {:induction false} ReceivingUses(s: State, steps: seq<Step>)
    requires Inv(s) && IsRun(s, steps) && (Used(s) || Received(steps) > 0)
    ensures Used(After(s, steps))
    decreases |steps|
  {
    if steps != [] {
      StepKeepsInv(s, steps[0]);
      ReceivingUses(Next(s, steps[0]), steps[1..]);
    }
  }

  /** The counter is the number of requests received and not yet responded to, in every interleaving and
      however the reports are sent, wrapped to an `int32`; and a reporter sleeps exactly while the mark is set. */
  lemma CounterCountsOpenRequests(start: State, steps: seq<Step>)
    requires IsStart(start) && IsRun(start, steps)
    ensures After(start, steps).counter == ToInt32(Received(steps) - Responded(steps))
    ensures After(start, steps).sleeping == if After(start, steps).mark then 1 else 0
  {
    StartIsQuiet(start);
    CountsFrom(start, steps);
  }

  lemma CountsFrom(s: State, steps: seq<Step>)
    requires Inv(s) && InFlight(s) == 0 && IsRun(s, steps)
    ensures After(s, steps).counter == ToInt32(Received(steps) - Responded(steps))
    ensures After(s, steps).sleeping == if After(s, steps).mark then 1 else 0
  {
    RunKeepsInv(s, steps);
  }

  /** In every interleaving, however the reports are sent: unless a report is owed, the value loaded last is
      the number of requests in flight, and the store holds that number if and only if the value sent last is
      the value loaded last. */
  lemma StoreIsRightIff(start: State, steps: seq<Step>)
    requires IsStart(start) && IsRun(start, steps) && Received(steps) > 0 && !ReportOwed(After(start, steps))
    ensures var end, open := After(start, steps), ToU32(Received(steps) - Responded(steps));
            end.newest == Some(open) && (end.reported == Some(open) <==> end.reported == end.newest)
  {
    StartIsQuiet(start);
    NewestIsCount(start, steps);
  }

  lemma NewestIsCount(s: State, steps: seq<Step>)
    requires Inv(s) && InFlight(s) == 0 && IsRun(s, steps) && Received(steps) > 0 && !ReportOwed(After(s, steps))
    ensures After(s, steps).newest == Some(ToU32(Received(steps) - Responded(steps)))
  {
    RunKeepsInv(s, steps);
    ReceivingUses(s, steps);
  }

  // ---------- sending in order ----------

  ghost predicate SendsInOrder(steps: seq<Step>) {
    forall k :: 0 <= k < |steps| ==> (steps[k].Send? ==> steps[k].i == 0)
  }

  /** The value loaded last is the last to be sent, if it was not sent already. */
  predicate NewestIsLast(s: State) {
    s.newest == if s.loaded == [] then s.reported else Some(s.loaded[|s.loaded| - 1])
  }

  lemma {:induction false} SendingInOrderKeepsNewestLast(s: State, steps: seq<Step>)
    requires NewestIsLast(s) && IsRun(s, steps) && SendsInOrder(steps)
    ensures NewestIsLast(After(s, steps))
    decreases |steps|
  {
    if steps != [] {
      assert steps[0].Send? ==> steps[0].i == 0;
      SendingInOrderKeepsNewestLast(Next(s, steps[0]), steps[1..]);
    }
  }

  /** No update is lost when the values are sent in the order they were loaded: once no report is owed or
      waits to be sent, the store holds the number of requests in flight. */
  lemma NoUpdateIsLost(start: State, steps: seq<Step>)
    requires IsStart(start) && IsRun(start, steps) && SendsInOrder(steps) && Received(steps) > 0
    requires !ReportOwed(After(start, steps)) && After(start, steps).loaded == []
    ensures After(start, steps).reported == Some(ToU32(Received(steps) - Responded(steps)))
  {
    StoreIsRightIff(start, steps);
    SendingInOrderKeepsNewestLast(start, steps);
  }

  // ---------- catching up ----------

  predicate Internal(step: Step) {
    !step.Receive? && !step.Respond?
  }

  ghost predicate AllInternal(steps: seq<Step>) {
    forall k :: 0 <= k < |steps| ==> Internal(steps[k])
  }

  /** An upper bound on the checks, deletes, loads and sends that are left. */
  function Backlog(s: State): nat {
    4 * (s.added + s.subtracted) + 3 * s.sleeping + 2 * s.woken + |s.loaded|
  }

  lemma InternalStepShortensBacklog(s: State, step: Step)
    requires Enabled(s, step) && Internal(step)
    ensures Backlog(Next(s, step)) < Backlog(s)
    ensures InFlight(Next(s, step)) == InFlight(s)
    ensures Used(s) ==> Used(Next(s, step))
  {
  }

  ghost predicate Stuck(s: State) {
    forall step :: Internal(step) ==> !Enabled(s, step)
  }

  lemma StuckOwesNothing(s: State)
    requires Inv(s) && Used(s) && Stuck(s)
    ensures s.loaded == [] && s.newest == Some(ToU32(InFlight(s)))
  {
    assert !Enabled(s, CheckReceived) && !Enabled(s, CheckResponded) && !Enabled(s, Delete) && !Enabled(s, Load) && !Enabled(s, Send(0));
  }

  /** Once requests neither come nor go, at most `Backlog` steps remain, in whatever order; and when none is
      left, everything is sent and the value loaded last is the number of requests in flight. */
  lemma {:induction false} ReportsCatchUp(s: State, steps: seq<Step>)
    requires Inv(s) && Used(s) && IsRun(s, steps) && AllInternal(steps)
    ensures |steps| <= Backlog(s)
    ensures Stuck(After(s, steps)) ==> After(s, steps).loaded == [] && After(s, steps).newest == Some(ToU32(InFlight(s)))
    decreases |steps|
  {
    if steps == [] {
      if Stuck(s) {
        StuckOwesNothing(s);
      }
    } else {
      StepKeepsInv(s, steps[0]);
      InternalStepShortensBacklog(s, steps[0]);
      ReportsCatchUp(Next(s, steps[0]), steps[1..]);
    }
  }

  /** What the store holds then: the number of requests in flight if and only if the value loaded last was
      sent last, as it is when the remaining values are sent in order. */
  lemma CaughtUpIff(s: State, steps: seq<Step>)
    requires Inv(s) && Used(s) && IsRun(s, steps) && AllInternal(steps) && Stuck(After(s, steps))
    ensures var end := After(s, steps); end.reported == Some(ToU32(InFlight(s))) <==> end.reported == end.newest
    ensures NewestIsLast(s) && SendsInOrder(steps) ==> After(s, steps).reported == Some(ToU32(InFlight(s)))
  {
    ReportsCatchUp(s, steps);
    if NewestIsLast(s) && SendsInOrder(steps) {
      SendingInOrderKeepsNewestLast(s, steps);
    }
  }

  // ---------- why sending in order matters ----------

  lemma {:induction false} OneMoreStep(s: State, steps: seq<Step>, step: Step) returns (longer: seq<Step>)
    requires IsRun(s, steps) && Enabled(After(s, steps), step)
    ensures longer == steps + [step] && IsRun(s, longer) && After(s, longer) == Next(After(s, steps), step)
    decreases |steps|
  {
    longer := steps + [step];
    if steps != [] {
      var rest := OneMoreStep(Next(s, steps[0]), steps[1..], step);
      assert longer[1..] == rest;
    }
  }

  lemma TwoValuesLoaded() returns (steps: seq<Step>)
    ensures IsRun(START, steps)
    ensures After(START, steps) == State(0, false, 0, 0, 0, 0, 0, [1, 0], None, Some(0))
  {
    steps := OneMoreStep(START, [], Receive);
    steps := OneMoreStep(START, steps, CheckReceived);
    steps := OneMoreStep(START, steps, Delete);
    steps := OneMoreStep(START, steps, Load);
    assert After(START, steps) == State(1, false, 0, 1, 0, 0, 0, [1], None, Some(1));
    steps := OneMoreStep(START, steps, Respond);
    steps := OneMoreStep(START, steps, CheckResponded);
    steps := OneMoreStep(START, steps, Delete);
    steps := OneMoreStep(START, steps, Load);
  }

  /** Two loaded values sent in the other order: the request is over and no report is owed, yet the store
      keeps one request in flight. */
  lemma OvertakenReportIsWrong() returns (steps: seq<Step>)
    ensures IsStart(START) && IsRun(START, steps) && !SendsInOrder(steps)
    ensures var s := After(START, steps); !ReportOwed(s) && s.loaded == [] && InFlight(s) == 0 && s.reported == Some(1)
  {
    steps := TwoValuesLoaded();
    steps := OneMoreStep(START, steps, Send(1));

    steps := OneMoreStep(START, steps, Send(0));
    assert steps[|steps| - 2] == Send(1);
  }
}
