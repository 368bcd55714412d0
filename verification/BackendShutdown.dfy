// Stopping the desktop backend (apps/desktop/src/backendShutdown.ts): a race
// between the exit of the child, a force-kill timer and an absolute deadline.
//
// The environment decides everything the process and the event loop decide:
// when the child dies, when its exit event is delivered (possibly from inside a
// kill), and when a timer fires. Promises settle into a list of outcomes.
module BackendShutdown {
  import opened Wrappers

  datatype Platform = Posix | Windows

  datatype Outcome =
    | AlreadyExited
    | Exited(forced: bool)
    | TimedOut(forced: bool)     // the timeout error on POSIX, the timed-out result on Windows

  // What the child does while a signal or a request is being sent to it.
  datatype During = During(dies: bool, emitsExit: bool, throws: bool)

  datatype Request = NotStarted | Started(cancels: nat)

  // One shutdown operation, with the liveness of its child.
  datatype Operation = Operation(
    childExited: bool,
    listening: bool,           // for the exit event
    settled: bool,
    forced: bool,
    forceTimer: bool,          // armed
    deadlineTimer: bool,       // armed
    request: Request,
    // history
    outcomes: seq<Outcome>,    // every resolution of the promise
    forceAttempts: nat)

  function Fresh(childExited: bool): Operation {
    Operation(childExited, false, false, false, false, false, NotStarted, [], 0)
  }

  // ---- The closures of one operation ----

  function Cancel(r: Request): Request {
    if r.Started? then Started(r.cancels + 1) else r
  }

  function Settle(op: Operation, outcome: Outcome): Operation {
    if op.settled then op
    else op.(settled := true, listening := false, forceTimer := false, deadlineTimer := false,
             request := Cancel(op.request), outcomes := op.outcomes + [outcome])
  }

  function OnExit(op: Operation): Operation {
    Settle(op, Exited(op.forced))
  }

  // The call during which the child may die and its exit event may be delivered.
  function Meanwhile(op: Operation, during: During): Operation {
    var after := op.(childExited := op.childExited || during.dies);
    if after.childExited && during.emitsExit && after.listening then OnExit(after) else after
  }

  function ForceIfRunning(op: Operation, during: During): Operation {
    if op.settled || op.childExited then
      if op.childExited then OnExit(op) else op
    else
      var sent := Meanwhile(op.(forced := true, forceAttempts := op.forceAttempts + 1), during);
      if sent.childExited then OnExit(sent) else sent
  }

  // The timers, after the graceful request: shared by both platforms.
  function ArmTimers(op: Operation, forceImmediately: bool, during: During): Operation {
    var o := if forceImmediately then ForceIfRunning(op, during) else op.(forceTimer := true);
    if o.settled then o else o.(deadlineTimer := true)
  }

  // runPosixBackendShutdown up to its first wait: term is what happens during
  // kill("SIGTERM"), kill what happens during an immediate force kill.
  function StartPosix(childExited: bool, forceImmediately: bool, term: During, kill: During): Operation {
    var op := Fresh(childExited);
    if childExited then Settle(op, AlreadyExited)
    else
      var asked := Meanwhile(op.(listening := true), term);
      if asked.childExited then OnExit(asked) else ArmTimers(asked, forceImmediately, kill)
  }

  // runWindowsBackendShutdown up to its first wait.
  function StartWindows(childExited: bool, forceImmediately: bool, request: During, kill: During): Operation {
    var op := Fresh(childExited);
    if childExited then Settle(op, AlreadyExited)
    else
      var asked := Meanwhile(op.(listening := true), request);
      var started := if request.throws then asked else asked.(request := Started(0));
      if started.settled then started.(request := Cancel(started.request))
      else if started.childExited then OnExit(started)
      else ArmTimers(started, forceImmediately, kill)
  }

  function Start(platform: Platform, childExited: bool, forceImmediately: bool, ask: During, kill: During): Operation {
    if platform.Posix? then StartPosix(childExited, forceImmediately, ask, kill)
    else StartWindows(childExited, forceImmediately, ask, kill)
  }

  datatype Event =
    | ChildDies                       // exitCode or signalCode set, its event still queued
    | ExitDelivered
    | ForceTimerFires(during: During)
    | DeadlineFires
    | RequestAnswered                 // the HTTP outcome, of any kind

  predicate Enabled(op: Operation, event: Event) {
    match event
    case ChildDies => true
    case ExitDelivered => op.childExited
    case ForceTimerFires(_) => op.forceTimer
    case DeadlineFires => op.deadlineTimer
    case RequestAnswered => op.request.Started?
  }

  function Step(op: Operation, event: Event): Operation {
    if !Enabled(op, event) then op
    else match event
      case ChildDies => op.(childExited := true)
      case ExitDelivered => if op.listening then OnExit(op) else op
      case ForceTimerFires(during) => ForceIfRunning(op.(forceTimer := false), during)
      case DeadlineFires =>
        var fired := op.(deadlineTimer := false);
        if fired.childExited then OnExit(fired) else Settle(fired, TimedOut(fired.forced))
      case RequestAnswered => op
  }

  function Run(op: Operation, events: seq<Event>): Operation
    decreases |events|
  {
    if events == [] then op else Step(Run(op, events[..|events| - 1]), events[|events| - 1])
  }

  // ---- What every interleaving keeps ----

  ghost predicate Inv(op: Operation) {
    // settles at most once
    && |op.outcomes| == (if op.settled then 1 else 0)
    // reports success only with the child gone, and the forced flag as it was then
    && (op.settled ==>
          match op.outcomes[0]
          case AlreadyExited => op.childExited && op.forceAttempts == 0
          case Exited(forced) => op.childExited && forced == op.forced
          case TimedOut(forced) => forced == op.forced)
    // at most one force attempt, remembered by the flag
    && op.forceAttempts == (if op.forced then 1 else 0)
    // while unsettled it listens, the deadline is armed, and force is either due or done
    && (!op.settled ==> op.listening && op.deadlineTimer && op.forceTimer == !op.forced)
    // once settled nothing is left behind
    && (op.settled ==> !op.listening && !op.deadlineTimer && !op.forceTimer)
    // a started request is cancelled exactly once, by settlement
    && (op.request.Started? ==> op.request.cancels == if op.settled then 1 else 0)
  }

  lemma StartEstablishes(platform: Platform, childExited: bool, forceImmediately: bool, ask: During, kill: During)
    ensures Inv(Start(platform, childExited, forceImmediately, ask, kill))
  {
    if platform.Posix? {
      StartPosixEstablishes(childExited, forceImmediately, ask, kill);
    } else {
      StartWindowsEstablishes(childExited, forceImmediately, ask, kill);
    }
  }

  lemma StartPosixEstablishes(childExited: bool, forceImmediately: bool, term: During, kill: During)
    ensures Inv(StartPosix(childExited, forceImmediately, term, kill))
  {
  }

  lemma StartWindowsEstablishes(childExited: bool, forceImmediately: bool, request: During, kill: During)
    ensures Inv(StartWindows(childExited, forceImmediately, request, kill))
  {
  }

  lemma StepKeeps(op: Operation, event: Event)
    requires Inv(op)
    ensures Inv(Step(op, event))
    // never after exit, never twice
    ensures Step(op, event).forceAttempts != op.forceAttempts ==>
              !op.childExited && !op.settled && op.forceAttempts == 0
    // settlement is final
    ensures op.settled ==> Step(op, event).outcomes == op.outcomes
    // the exit event and the deadline always settle; the HTTP outcome never does
    ensures Enabled(op, event) && (event.ExitDelivered? || event.DeadlineFires?) ==> Step(op, event).settled
    ensures event.RequestAnswered? ==> Step(op, event) == op
    // a timeout is only reported for a child that is still running
    ensures Step(op, event).settled && !op.settled && Step(op, event).outcomes[0].TimedOut? ==>
              event.DeadlineFires? && !op.childExited && Step(op, event).outcomes[0].forced == !op.forceTimer
  {
  }

  lemma {:induction false} RunKeeps(op: Operation, events: seq<Event>)
    requires Inv(op)
    ensures Inv(Run(op, events))
    ensures op.settled ==> Run(op, events).outcomes == op.outcomes
    decreases |events|
  {
    hide Step;
    if events != [] {
      RunKeeps(op, events[..|events| - 1]);
      StepKeeps(Run(op, events[..|events| - 1]), events[|events| - 1]);
    }
  }

  lemma Unsettled(op: Operation)
    requires Inv(op)
    ensures op.settled <==> op.outcomes != []
  {
  }

  // ---- Timeouts and the force attempt ----

  // A timeout was forced if and only if the force timer was no longer armed when the
  // deadline fired.
  lemma {:induction false} TimeoutIsADeadline(op: Operation, events: seq<Event>) returns (i: nat)
    requires Inv(op) && !op.settled
    requires Run(op, events).outcomes != [] && Run(op, events).outcomes[0].TimedOut?
    ensures i < |events| && events[i].DeadlineFires? && Run(op, events[..i]).deadlineTimer
    ensures Run(op, events).outcomes[0].forced <==> !Run(op, events[..i]).forceTimer
    decreases |events|
  {
    hide Step, Inv;
    Unsettled(op);
    assert events != [];
    var init := events[..|events| - 1];
    RunKeeps(op, init);
    Unsettled(Run(op, init));
    StepKeeps(Run(op, init), events[|events| - 1]);
    if Run(op, init).settled {
      assert Run(op, init).outcomes == Run(op, events).outcomes;
      i := TimeoutIsADeadline(op, init);
      assert events[..i] == init[..i];
    } else {
      i := |events| - 1;
      DeadlineArmed(Run(op, init));
    }
  }

  lemma DeadlineArmed(op: Operation)
    requires Inv(op) && !op.settled
    ensures op.deadlineTimer
  {
  }

  // What setTimeout takes a delay for, in milliseconds: the runtime drops fractions, and
  // treats what is under one or over its limit as one.
  const TIMEOUT_MAX := 2147483647.0

  function EffectiveDelay(delay: real): int {
    if 1.0 <= delay <= TIMEOUT_MAX then delay.Floor else 1
  }

  // Both timers are armed in the turn in which the operation starts.
  datatype Schedule = Schedule(begun: real, forceKillDelay: real, timeout: real)

  function ForceDue(schedule: Schedule): real {
    schedule.begun + EffectiveDelay(schedule.forceKillDelay) as real
  }

  function DeadlineDue(schedule: Schedule): real {
    schedule.begun + EffectiveDelay(schedule.timeout) as real
  }

  // A timer does not fire before it is due, or before another one that is due earlier, or
  // due at the same time and armed first: the force timer is.
  predicate FiresInTurn(schedule: Schedule, op: Operation, event: Event, time: real) {
    match event
    case ForceTimerFires(_) =>
      op.forceTimer ==>
        ForceDue(schedule) <= time && !(op.deadlineTimer && DeadlineDue(schedule) < ForceDue(schedule))
    case DeadlineFires =>
      op.deadlineTimer ==>
        DeadlineDue(schedule) <= time && !(op.forceTimer && ForceDue(schedule) <= DeadlineDue(schedule))
    case _ => true
  }

  ghost predicate Timely(schedule: Schedule, op: Operation, events: seq<Event>, times: seq<real>) {
    && |times| == |events|
    && (forall i, j :: 0 <= i < j < |times| ==> times[i] <= times[j])
    && forall i :: 0 <= i < |events| ==> FiresInTurn(schedule, Run(op, events[..i]), events[i], times[i])
  }

  // The delays that stop accepts keep their order as timers, unless the timeout is beyond
  // the range of setTimeout and the force delay is not.
  lemma DelaysInOrder(forceKillDelay: real, timeout: real)
    requires 0.0 <= forceKillDelay < timeout
    ensures EffectiveDelay(forceKillDelay) <= EffectiveDelay(timeout)
       <==> !(TIMEOUT_MAX < timeout && 2.0 <= forceKillDelay <= TIMEOUT_MAX)
  {
    FloorInOrder(forceKillDelay, timeout);
    FloorInOrder(2.0, forceKillDelay);
    FloorInOrder(1.0, timeout);
  }

  lemma FloorInOrder(a: real, b: real)
    ensures a <= b ==> a.Floor <= b.Floor
    ensures (2.0).Floor == 2 && (1.0).Floor == 1 && (b < 2.0 ==> b.Floor <= 1)
  {
  }

  // On either platform, with valid delays and timers that fire in turn: a shutdown that
  // timed out did so no earlier than its deadline, and had made its force attempt.
  lemma TimeoutWasForced(platform: Platform, schedule: Schedule, childExited: bool, ask: During, kill: During,
                         events: seq<Event>, times: seq<real>)
    requires ValidDelays(Ms(schedule.forceKillDelay), Ms(schedule.timeout))
    requires !(TIMEOUT_MAX < schedule.timeout && 2.0 <= schedule.forceKillDelay <= TIMEOUT_MAX)
    requires Timely(schedule, Start(platform, childExited, schedule.forceKillDelay == 0.0, ask, kill), events, times)
    ensures var op := Run(Start(platform, childExited, schedule.forceKillDelay == 0.0, ask, kill), events);
            op.outcomes != [] && op.outcomes[0].TimedOut? ==>
              op.outcomes[0].forced && op.forceAttempts == 1 && events != []
              && DeadlineDue(schedule) <= times[|times| - 1]
  {
    var start := Start(platform, childExited, schedule.forceKillDelay == 0.0, ask, kill);
    StartEstablishes(platform, childExited, schedule.forceKillDelay == 0.0, ask, kill);
    StartDoesNotTimeOut(platform, childExited, schedule.forceKillDelay == 0.0, ask, kill);
    RunKeeps(start, events);
    Unsettled(start);
    var end := Run(start, events);
    Unsettled(end);
    if end.outcomes != [] && end.outcomes[0].TimedOut? {
      assert !start.settled;
      var i := TimeoutIsADeadline(start, events);
      assert FiresInTurn(schedule, Run(start, events[..i]), events[i], times[i]);
      DelaysInOrder(schedule.forceKillDelay, schedule.timeout);
      hide Run, Start, EffectiveDelay;
      assert times[i] <= times[|times| - 1];
    }
  }

  lemma StartDoesNotTimeOut(platform: Platform, childExited: bool, forceImmediately: bool, ask: During, kill: During)
    ensures var op := Start(platform, childExited, forceImmediately, ask, kill);
            op.outcomes != [] ==> !op.outcomes[0].TimedOut?
  {
    hide Meanwhile, ArmTimers;
    var asked := Meanwhile(Fresh(childExited).(listening := true), ask);
    NoTimeoutMeanwhile(Fresh(childExited).(listening := true), ask);
    NoTimeoutArming(asked, forceImmediately, kill);
    NoTimeoutArming(asked.(request := Started(0)), forceImmediately, kill);
  }

  lemma NoTimeoutMeanwhile(op: Operation, during: During)
    requires op.outcomes == []
    ensures forall o :: o in Meanwhile(op, during).outcomes ==> !o.TimedOut?
  {
  }

  lemma NoTimeoutArming(op: Operation, forceImmediately: bool, kill: During)
    requires forall o :: o in op.outcomes ==> !o.TimedOut?
    ensures forall o :: o in ArmTimers(op, forceImmediately, kill).outcomes ==> !o.TimedOut?
  {
  }

  // Beyond the range of setTimeout the deadline comes first, and nothing was forced.
  lemma LongTimeoutIsNotForced(platform: Platform, schedule: Schedule)
    returns (ask: During, kill: During, events: seq<Event>, times: seq<real>)
    requires TIMEOUT_MAX < schedule.timeout && 2.0 <= schedule.forceKillDelay <= TIMEOUT_MAX
    ensures var start := Start(platform, false, schedule.forceKillDelay == 0.0, ask, kill);
            Timely(schedule, start, events, times) && Run(start, events).outcomes == [TimedOut(false)]
  {
    ask, kill := During(false, false, false), During(false, false, false);
    events, times := [DeadlineFires], [DeadlineDue(schedule)];
    DelaysInOrder(schedule.forceKillDelay, schedule.timeout);
    var start := Start(platform, false, false, ask, kill);
    assert events[..0] == [];
    assert Run(start, events[..0]) == start;
    hide EffectiveDelay;
  }

  // ---- One operation per child ----

  datatype Duration = NotFinite | Ms(value: real)

  predicate ValidDelays(forceKillDelay: Duration, timeout: Duration) {
    && forceKillDelay.Ms? && timeout.Ms?
    && 0.0 <= forceKillDelay.value < timeout.value
  }

  type Child = nat

  datatype StartedOn = StartedOn(child: Child, op: Operation)

  // The per-process registry of one platform, and every operation ever started on it.
  datatype Registry = Registry(byProcess: map<Child, nat>, operations: seq<StartedOn>)

  datatype StopResult = RangeError | Shared(id: nat)

  datatype StopCall = StopCall(child: Child, forceKillDelay: Duration, timeout: Duration,
                               childExited: bool, ask: During, kill: During)

  // stopPosixBackendAndWait checks the delays first, stopWindowsBackendAndWait
  // looks for a running operation first.
  function Stop(platform: Platform, r: Registry, call: StopCall): (Registry, StopResult) {
    var valid := ValidDelays(call.forceKillDelay, call.timeout);
    if !valid && (platform.Posix? || call.child !in r.byProcess) then (r, RangeError)
    else if call.child in r.byProcess then (r, Shared(r.byProcess[call.child]))
    else
      var op := Start(platform, call.childExited, call.forceKillDelay.value == 0.0, call.ask, call.kill);
      var id := |r.operations|;
      (Registry(r.byProcess[call.child := id], r.operations + [StartedOn(call.child, op)]), Shared(id))
  }

  // The callback on the settled promise: a finished operation leaves the registry,
  // on Windows only when it timed out.
  function Forget(platform: Platform, r: Registry, id: nat): Registry
    requires id < |r.operations|
  {
    var run := r.operations[id];
    if run.child in r.byProcess && r.byProcess[run.child] == id && run.op.outcomes != []
       && (platform.Posix? || run.op.outcomes[0].TimedOut?)
    then r.(byProcess := r.byProcess - {run.child}) else r
  }

  datatype WorldEvent =
    | StopCalled(call: StopCall)
    | OperationEvent(id: nat, event: Event)
    | PromiseSettled(id: nat)

  function WorldStep(platform: Platform, r: Registry, e: WorldEvent): Registry {
    match e
    case StopCalled(call) => Stop(platform, r, call).0
    case OperationEvent(id, event) =>
      if id >= |r.operations| then r
      else
        var run := r.operations[id];
        r.(operations := r.operations[id := run.(op := Step(run.op, event))])
    case PromiseSettled(id) => if id < |r.operations| then Forget(platform, r, id) else r
  }

  function WorldRun(platform: Platform, events: seq<WorldEvent>): Registry
    decreases |events|
  {
    if events == [] then Registry(map[], [])
    else WorldStep(platform, WorldRun(platform, events[..|events| - 1]), events[|events| - 1])
  }

  ghost predicate WorldInv(r: Registry) {
    && (forall id :: 0 <= id < |r.operations| ==> Inv(r.operations[id].op))
    && (forall child :: child in r.byProcess ==>
          r.byProcess[child] < |r.operations| && r.operations[r.byProcess[child]].child == child)
    && (forall id :: 0 <= id < |r.operations| && !r.operations[id].op.settled ==>
          r.operations[id].child in r.byProcess && r.byProcess[r.operations[id].child] == id)
  }

  lemma WorldStepKeeps(platform: Platform, r: Registry, e: WorldEvent)
    requires WorldInv(r)
    ensures WorldInv(WorldStep(platform, r, e))
  {
    hide Step, Start, Inv;
    match e
    case StopCalled(call) =>
      StartEstablishes(platform, call.childExited, call.forceKillDelay == Ms(0.0), call.ask, call.kill);
    case OperationEvent(id, event) =>
      if id < |r.operations| {
        StepKeeps(r.operations[id].op, event);
        Unsettled(r.operations[id].op);
        Unsettled(Step(r.operations[id].op, event));
      }
    case PromiseSettled(id) =>
      if id < |r.operations| {
        Unsettled(r.operations[id].op);
      }
  }

  lemma {:induction false} WorldRunKeeps(platform: Platform, events: seq<WorldEvent>)
    ensures WorldInv(WorldRun(platform, events))
    decreases |events|
  {
    hide WorldStep;
    if events != [] {
      WorldRunKeeps(platform, events[..|events| - 1]);
      WorldStepKeeps(platform, WorldRun(platform, events[..|events| - 1]), events[|events| - 1]);
    }
  }

  // At most one operation per child is in flight, and a further call for that child
  // joins it instead of starting another.
  lemma OneOperationPerChild(platform: Platform, events: seq<WorldEvent>, one: nat, call: StopCall)
    requires one < |WorldRun(platform, events).operations|
    requires !WorldRun(platform, events).operations[one].op.settled
    requires call.child == WorldRun(platform, events).operations[one].child
    ensures var r := WorldRun(platform, events);
            forall other :: 0 <= other < |r.operations| ==>
              (r.operations[other].child == call.child && !r.operations[other].op.settled ==> other == one)
    ensures var r := WorldRun(platform, events);
            Stop(platform, r, call) == (r, if platform.Posix? && !ValidDelays(call.forceKillDelay, call.timeout)
                                           then RangeError else Shared(one))
  {
    hide WorldStep, Start;
    WorldRunKeeps(platform, events);
  }

  // Two delays that are accepted and a child with no entry start an operation: it is the new
  // last one, registered for its child. A child that had exited is reported so at once;
  // otherwise, unless it dies while being asked, the deadline is armed, and force was tried
  // at once or is due, as the delay is zero or not. On Windows the request was started unless
  // it threw, on POSIX there is none.
  lemma StopStarts(platform: Platform, r: Registry, call: StopCall)
    requires call.forceKillDelay.Ms? && call.timeout.Ms? && 0.0 <= call.forceKillDelay.value < call.timeout.value
    requires call.child !in r.byProcess
    ensures var (after, result) := Stop(platform, r, call);
            var id := |r.operations|;
            && result == Shared(id) && after.byProcess == r.byProcess[call.child := id]
            && |after.operations| == id + 1 && after.operations[..id] == r.operations
            && after.operations[id].child == call.child
            && var op := after.operations[id].op;
               && (call.childExited <==> op.settled && op.outcomes[0] == AlreadyExited)
               && (!call.childExited && (call.ask.dies || (call.forceKillDelay == Ms(0.0) && call.kill.dies)) ==>
                     op.settled && op.outcomes[0].Exited?)
               && (!call.childExited && !call.ask.dies && !(call.forceKillDelay == Ms(0.0) && call.kill.dies) ==>
                     && !op.settled && op.deadlineTimer && op.listening && !op.childExited
                     && (if call.forceKillDelay == Ms(0.0) then op.forced && op.forceAttempts == 1 && !op.forceTimer
                         else !op.forced && op.forceAttempts == 0 && op.forceTimer)
                     && op.request == (if platform.Windows? && !call.ask.throws then Started(0) else NotStarted))
  {
    hide StartPosix, StartWindows, Inv;
    var force := call.forceKillDelay == Ms(0.0);
    StartEstablishes(platform, call.childExited, force, call.ask, call.kill);
    PosixStarts(call.childExited, force, call.ask, call.kill);
    WindowsStarts(call.childExited, force, call.ask, call.kill);
  }

  // What an operation is right after its start.
  ghost predicate JustStarted(op: Operation, childExited: bool, force: bool, ask: During, kill: During, request: Request) {
    && (childExited <==> op.settled && |op.outcomes| == 1 && op.outcomes[0] == AlreadyExited)
    && (!childExited && (ask.dies || (force && kill.dies)) ==>
          op.settled && |op.outcomes| == 1 && op.outcomes[0].Exited?)
    && (!childExited && !ask.dies && !(force && kill.dies) ==>
          && !op.settled && op.deadlineTimer && op.listening && !op.childExited && op.request == request
          && (if force then op.forced && op.forceAttempts == 1 && !op.forceTimer
              else !op.forced && op.forceAttempts == 0 && op.forceTimer))
  }

  lemma PosixStarts(childExited: bool, force: bool, ask: During, kill: During)
    ensures JustStarted(StartPosix(childExited, force, ask, kill), childExited, force, ask, kill, NotStarted)
  {
  }

  lemma WindowsStarts(childExited: bool, force: bool, ask: During, kill: During)
    ensures JustStarted(StartWindows(childExited, force, ask, kill), childExited, force, ask, kill,
                     if ask.throws then NotStarted else Started(0))
  {
  }

  // Delays that are not accepted start nothing: on POSIX whatever is running, on Windows if
  // the child has no entry.
  lemma StopRefuses(platform: Platform, r: Registry, call: StopCall)
    requires call.forceKillDelay.NotFinite? || call.timeout.NotFinite? || call.forceKillDelay.value < 0.0
             || call.timeout.value <= 0.0 || call.forceKillDelay.value >= call.timeout.value
    ensures platform.Posix? || call.child !in r.byProcess ==> Stop(platform, r, call) == (r, RangeError)
    ensures platform.Windows? && call.child in r.byProcess ==>
              Stop(platform, r, call) == (r, Shared(r.byProcess[call.child]))
  {
  }

  // A settled operation gives its entry up, on Windows only after a timeout: a child that
  // exited keeps its result there for good.
  lemma SettledIsForgotten(platform: Platform, r: Registry, id: nat)
    requires WorldInv(r) && id < |r.operations|
    ensures var child, op := r.operations[id].child, r.operations[id].op;
            var after := WorldStep(platform, r, PromiseSettled(id));
            && after.operations == r.operations
            && after.byProcess
               == (if op.settled && child in r.byProcess && r.byProcess[child] == id
                      && (platform.Posix? || op.outcomes[0].TimedOut?)
                   then r.byProcess - {child} else r.byProcess)
  {
    hide Step, Start;
    Unsettled(r.operations[id].op);
  }

  // ---- The closures in place ----

  // The methods are the functions above, done in place: after BeginPosix or BeginWindows and
  // any calls of Handle, View() is a Run from Start, and RunKeeps and TimeoutWasForced hold
  // of the object.
  class ShutdownOperation {
    var childExited: bool
    var listening: bool
    var settled: bool
    var forced: bool
    var forceTimer: bool
    var deadlineTimer: bool
    var pendingRequest: Request
    ghost var outcomes: seq<Outcome>
    ghost var forceAttempts: nat

    ghost function View(): Operation
      reads this
    {
      Operation(childExited, listening, settled, forced, forceTimer, deadlineTimer, pendingRequest, outcomes, forceAttempts)
    }

    constructor (childExited: bool)
      ensures View() == Fresh(childExited)
    {
      this.childExited := childExited;
      listening, settled, forced, forceTimer, deadlineTimer := false, false, false, false, false;
      pendingRequest, outcomes, forceAttempts := NotStarted, [], 0;
    }

    method SettleWith(outcome: Outcome)
      modifies this
      ensures View() == Settle(old(View()), outcome)
    {
      if settled {
        return;
      }
      settled := true;
      listening := false;
      forceTimer, deadlineTimer := false, false;
      if pendingRequest.Started? {
        pendingRequest := Started(pendingRequest.cancels + 1);
      }
      outcomes := outcomes + [outcome];
    }

    method Exit()
      modifies this
      ensures View() == OnExit(old(View()))
    {
      SettleWith(Exited(forced));
    }

    method DuringCall(during: During)
      modifies this
      ensures View() == Meanwhile(old(View()), during)
    {
      if during.dies {
        childExited := true;
      }
      if childExited && during.emitsExit && listening {
        Exit();
      }
    }

    method ForceIfStillRunning(during: During)
      modifies this
      ensures View() == ForceIfRunning(old(View()), during)
    {
      if settled || childExited {
        if childExited {
          Exit();
        }
        return;
      }
      forced := true;
      forceAttempts := forceAttempts + 1;
      DuringCall(during);
      if childExited {
        Exit();
      }
    }

    method Arm(forceImmediately: bool, kill: During)
      modifies this
      ensures View() == ArmTimers(old(View()), forceImmediately, kill)
    {
      if forceImmediately {
        ForceIfStillRunning(kill);
      } else {
        forceTimer := true;
      }
      if settled {
        return;
      }
      deadlineTimer := true;
    }

    method BeginPosix(forceImmediately: bool, term: During, kill: During)
      requires View() == Fresh(childExited)
      modifies this
      ensures View() == StartPosix(old(childExited), forceImmediately, term, kill) && Inv(View())
    {
      StartPosixEstablishes(childExited, forceImmediately, term, kill);
      hide Inv, ArmTimers;
      if childExited {
        SettleWith(AlreadyExited);
        return;
      }
      listening := true;
      DuringCall(term);
      if childExited {
        Exit();
        return;
      }
      Arm(forceImmediately, kill);
    }

    method BeginWindows(forceImmediately: bool, request: During, kill: During)
      requires View() == Fresh(childExited)
      modifies this
      ensures View() == StartWindows(old(childExited), forceImmediately, request, kill) && Inv(View())
    {
      StartWindowsEstablishes(childExited, forceImmediately, request, kill);
      hide Inv, ArmTimers;
      if childExited {
        SettleWith(AlreadyExited);
        return;
      }
      listening := true;
      DuringCall(request);
      if !request.throws {
        pendingRequest := Started(0);
        if settled {
          pendingRequest := Started(1);
          return;
        }
      }
      if childExited {
        Exit();
        return;
      }
      Arm(forceImmediately, kill);
    }

    method Handle(event: Event)
      requires Inv(View())
      modifies this
      ensures View() == Step(old(View()), event) && Inv(View())
    {
      StepKeeps(View(), event);
      hide Inv;
      match event
      case ChildDies => childExited := true;
      case ExitDelivered =>
        if childExited && listening {
          Exit();
        }
      case ForceTimerFires(during) =>
        if forceTimer {
          forceTimer := false;
          ForceIfStillRunning(during);
        }
      case DeadlineFires =>
        if deadlineTimer {
          deadlineTimer := false;
          if childExited {
            Exit();
          } else {
            SettleWith(TimedOut(forced));
          }
        }
      case RequestAnswered =>
    }
  }
}
