// Crash supervision of the desktop backend
// (apps/desktop/src/backendSupervisionPolicy.ts): restart backoff, the give-up
// circuit breaker, and the output tail used to explain it.
module BackendSupervision {
  import opened Wrappers

  const BACKEND_RESTART_BASE_DELAY_MS: nat := 500
  const BACKEND_RESTART_MAX_DELAY_MS: nat := 10_000
  const BACKEND_MAX_CONSECUTIVE_START_FAILURES: nat := 5
  const BACKEND_FAILURE_OUTPUT_TAIL_CHARS: nat := 8_192

  function Pow2(n: nat): nat {
    if n == 0 then 1 else 2 * Pow2(n - 1)
  }

  function RestartDelayMs(attempt: int): (delay: nat)
    ensures delay <= BACKEND_RESTART_MAX_DELAY_MS
  {
    var step := (if attempt > 1 then attempt else 1) - 1;
    var doubled := BACKEND_RESTART_BASE_DELAY_MS * Pow2(step);
    if doubled < BACKEND_RESTART_MAX_DELAY_MS then doubled else BACKEND_RESTART_MAX_DELAY_MS
  }

  datatype StartFailure = StartFailure(quitting: bool, restartPending: bool, markerPresent: bool)

  datatype Response =
    | Ignore
    | RecoverMigration
    | Retry(delayMs: nat, attempt: nat)
    | GiveUp(failures: nat)

  datatype Policy = Policy(failures: nat, givenUp: bool, migrationRecoveryPrompted: bool)

  const NEW_POLICY := Policy(0, false, false)

  function Respond(p: Policy, input: StartFailure): (Policy, Response) {
    if input.quitting || input.restartPending then (p, Ignore)
    else if input.markerPresent && !p.migrationRecoveryPrompted then
      (p.(migrationRecoveryPrompted := true), RecoverMigration)
    else if p.givenUp then (p, GiveUp(p.failures))
    else
      var failures := p.failures + 1;
      if failures >= BACKEND_MAX_CONSECUTIVE_START_FAILURES
      then (p.(failures := failures, givenUp := true), GiveUp(failures))
      else (p.(failures := failures), Retry(RestartDelayMs(failures), failures))
  }

  // A reset stands for reset() and for recordReadiness(), which calls it.
  datatype Event = Reset | Failed(input: StartFailure)

  function Step(p: Policy, event: Event): (Policy, Option<Response>) {
    match event
    case Reset => (p.(failures := 0, givenUp := false), None)
    case Failed(input) => var (q, response) := Respond(p, input); (q, Some(response))
  }

  // The policy after a run, and everything it answered.
  function Run(events: seq<Event>): (r: (Policy, seq<Option<Response>>))
    ensures |r.1| == |events|
    decreases |events|
  {
    if events == [] then (NEW_POLICY, [])
    else
      var (p, responses) := Run(events[..|events| - 1]);
      var (q, response) := Step(p, events[|events| - 1]);
      (q, responses + [response])
  }

  // ---- The answers in terms of the history alone ----

  // A failure the policy looks at.
  predicate Seen(event: Event) {
    event.Failed? && !event.input.quitting && !event.input.restartPending
  }

  // The first seen failure with the recovery marker present goes to migration
  // recovery, and no other event ever does, resets or not.
  ghost predicate IsRecovery(events: seq<Event>, i: nat)
    requires i < |events|
  {
    && Seen(events[i]) && events[i].input.markerPresent
    && forall j :: 0 <= j < i ==> !(Seen(events[j]) && events[j].input.markerPresent)
  }

  ghost predicate IsCounted(events: seq<Event>, i: nat)
    requires i < |events|
  {
    Seen(events[i]) && !IsRecovery(events, i)
  }

  // The counted failures among events[..n] since the last reset in it.
  ghost function CountedSinceReset(events: seq<Event>, n: nat): nat
    requires n <= |events|
  {
    if n == 0 || events[n - 1].Reset? then 0
    else CountedSinceReset(events, n - 1) + if IsCounted(events, n - 1) then 1 else 0
  }

  // What the policy has to answer to the i-th event, without reference to its state.
  ghost function Expected(events: seq<Event>, i: nat): Option<Response>
    requires i < |events|
  {
    if events[i].Reset? then None
    else if !Seen(events[i]) then Some(Ignore)
    else if IsRecovery(events, i) then Some(RecoverMigration)
    else
      var attempt := CountedSinceReset(events, i) + 1;
      Some(if attempt >= BACKEND_MAX_CONSECUTIVE_START_FAILURES
           then GiveUp(BACKEND_MAX_CONSECUTIVE_START_FAILURES)
           else Retry(BACKEND_RESTART_BASE_DELAY_MS * Pow2(attempt - 1), attempt))
  }

  ghost predicate Tracks(p: Policy, events: seq<Event>) {
    var counted := CountedSinceReset(events, |events|);
    && p.failures == (if counted < BACKEND_MAX_CONSECUTIVE_START_FAILURES
                      then counted else BACKEND_MAX_CONSECUTIVE_START_FAILURES)
    && (p.givenUp <==> counted >= BACKEND_MAX_CONSECUTIVE_START_FAILURES)
    && (p.migrationRecoveryPrompted <==>
          exists j :: 0 <= j < |events| && Seen(events[j]) && events[j].input.markerPresent)
  }

  lemma {:induction false} CountOfPrefix(events: seq<Event>, more: seq<Event>, n: nat)
    requires n <= |events|
    ensures CountedSinceReset(events + more, n) == CountedSinceReset(events, n)
  {
    if n > 0 {
      CountOfPrefix(events, more, n - 1);
      assert forall j :: 0 <= j < n ==> (events + more)[j] == events[j];
    }
  }

  // The delays below the breaker are exact doublings: the cap never bites.
  lemma DelaysDouble()
    ensures forall attempt :: 1 <= attempt < BACKEND_MAX_CONSECUTIVE_START_FAILURES ==>
              RestartDelayMs(attempt) == BACKEND_RESTART_BASE_DELAY_MS * Pow2(attempt - 1)
  {
  }

  // From one attempt to the next the delay doubles, up to the cap.
  lemma DelaysDoubleToTheCap(attempt: int)
    ensures attempt <= 1 ==> RestartDelayMs(attempt) == BACKEND_RESTART_BASE_DELAY_MS
    ensures attempt >= 1 ==>
              var doubled := 2 * RestartDelayMs(attempt);
              RestartDelayMs(attempt + 1)
              == if doubled < BACKEND_RESTART_MAX_DELAY_MS then doubled else BACKEND_RESTART_MAX_DELAY_MS
  {
    if attempt >= 1 {
      assert Pow2(attempt) == 2 * Pow2(attempt - 1);
    }
  }

  lemma StepTracks(events: seq<Event>, p: Policy, event: Event)
    requires Tracks(p, events)
    ensures Tracks(Step(p, event).0, events + [event])
    ensures Step(p, event).1 == Expected(events + [event], |events|)
  {
    hide RestartDelayMs, Pow2;
    DelaysDouble();
    CountOfPrefix(events, [event], |events|);
    var all := events + [event];
    assert all[|events|] == event;
    assert forall j :: 0 <= j < |events| ==> all[j] == events[j];
    assert IsRecovery(all, |events|) <==> Seen(event) && event.input.markerPresent && !p.migrationRecoveryPrompted;
  }

  // The stateful policy answers every event of every run as the history prescribes.
  lemma {:induction false} RunAnswersAsExpected(events: seq<Event>)
    ensures Tracks(Run(events).0, events)
    ensures forall i :: 0 <= i < |events| ==> Run(events).1[i] == Expected(events, i)
    decreases |events|
  {
    hide Step;
    if events != [] {
      var init, last := events[..|events| - 1], events[|events| - 1];
      RunAnswersAsExpected(init);
      assert events == init + [last];
      StepTracks(init, Run(init).0, last);
      forall i | 0 <= i < |init| ensures Expected(events, i) == Expected(init, i) {
        CountOfPrefix(init, [last], i);
        assert forall j :: 0 <= j <= i ==> events[j] == init[j];
      }
    }
  }

  // ---- What follows for users ----

  lemma {:induction false} CountIsMonotone(events: seq<Event>, from: nat, to: nat)
    requires from <= to <= |events|
    requires forall k :: from <= k < to ==> !events[k].Reset?
    ensures CountedSinceReset(events, from) <= CountedSinceReset(events, to)
    ensures to > from && IsCounted(events, from) ==> CountedSinceReset(events, from) < CountedSinceReset(events, to)
    decreases |events| - from
  {
    if from < to {
      CountIsMonotone(events, from + 1, to);
    }
  }

  // Two retries with no reset between them have increasing attempt numbers 1..4 and
  // the later delay is at least twice the earlier one.
  lemma RetriesAdvance(events: seq<Event>, i: nat, j: nat)
    requires i < j < |events| && forall k :: i < k < j ==> !events[k].Reset?
    requires Run(events).1[i].Some? && Run(events).1[i].value.Retry?
    requires Run(events).1[j].Some? && Run(events).1[j].value.Retry?
    ensures var first, second := Run(events).1[i].value, Run(events).1[j].value;
            1 <= first.attempt < second.attempt <= 4 && 2 * first.delayMs <= second.delayMs
  {
    hide Run, Pow2;
    RunAnswersAsExpected(events);
    CountIsMonotone(events, i, j);
    Pow2Monotone(CountedSinceReset(events, i) + 1, CountedSinceReset(events, j));
    assert Pow2(CountedSinceReset(events, i) + 1) == 2 * Pow2(CountedSinceReset(events, i)) by {
      Pow2Step(CountedSinceReset(events, i));
    }
  }

  lemma Pow2Step(n: nat)
    ensures Pow2(n + 1) == 2 * Pow2(n)
  {
  }

  lemma {:induction false} Pow2Monotone(a: nat, b: nat)
    requires a <= b
    ensures Pow2(a) <= Pow2(b)
    decreases b
  {
    if a < b {
      Pow2Monotone(a, b - 1);
    }
  }

  // Giving up is final for counted failures until the next reset.
  lemma GiveUpIsAbsorbing(events: seq<Event>, i: nat, j: nat)
    requires i < j < |events| && forall k :: i < k <= j ==> !events[k].Reset?
    requires Run(events).1[i].Some? && Run(events).1[i].value.GiveUp?
    ensures Run(events).1[j] == Some(if !Seen(events[j]) then Ignore
                                     else if IsRecovery(events, j) then RecoverMigration
                                     else GiveUp(BACKEND_MAX_CONSECUTIVE_START_FAILURES))
  {
    hide Run, Pow2;
    RunAnswersAsExpected(events);
    CountIsMonotone(events, i, j);
  }

  // The retry delays answered in events[..n] since the last reset in it.
  ghost function RetryDelays(events: seq<Event>, n: nat): seq<nat>
    requires n <= |events|
  {
    if n == 0 || events[n - 1].Reset? then []
    else
      var response := Run(events).1[n - 1];
      RetryDelays(events, n - 1) + if response.Some? && response.value.Retry? then [response.value.delayMs] else []
  }

  ghost function Sum(s: seq<nat>): nat {
    if s == [] then 0 else Sum(s[..|s| - 1]) + s[|s| - 1]
  }

  const BACKOFF: seq<nat> := [500, 1000, 2000, 4000]

  lemma BackoffTable()
    ensures forall k :: 0 <= k < 4 ==> BACKEND_RESTART_BASE_DELAY_MS * Pow2(k) == BACKOFF[k]
  {
  }

  // Between resets the delays are the first few of 500, 1000, 2000, 4000, so the
  // whole backoff spans at most 7.5 seconds.
  lemma {:induction false} BackoffSpan(events: seq<Event>, n: nat)
    requires n <= |events|
    ensures var retries := if CountedSinceReset(events, n) < 4 then CountedSinceReset(events, n) else 4;
            RetryDelays(events, n) == BACKOFF[..retries] && Sum(RetryDelays(events, n)) <= 7500
    decreases n
  {
    hide Run, Pow2, Sum;
    if n > 0 && !events[n - 1].Reset? {
      BackoffSpan(events, n - 1);
      RunAnswersAsExpected(events);
      BackoffTable();
    }
    SumOfDelays();
  }

  lemma SumOfDelays()
    ensures forall k :: 0 <= k <= 4 ==> Sum(BACKOFF[..k]) <= 7500
  {
    var d := BACKOFF;
    assert d[..0] == [] && Sum([]) == 0;
    assert d[..1] == [500] && [500][..0] == [] && Sum([500]) == 500;
    assert d[..2] == [500, 1000] && [500, 1000][..1] == [500] && Sum([500, 1000]) == 1500;
    assert d[..3] == [500, 1000, 2000] && [500, 1000, 2000][..2] == [500, 1000] && Sum([500, 1000, 2000]) == 3500;
    assert d[..4] == d && d[..3] == [500, 1000, 2000] && Sum(d) == 7500;
  }

  // recover-migration is answered at most once in the life of the policy.
  lemma RecoversAtMostOnce(events: seq<Event>, i: nat, j: nat)
    requires i < |events| && j < |events|
    requires Run(events).1[i] == Some(RecoverMigration) && Run(events).1[j] == Some(RecoverMigration)
    ensures i == j
  {
    hide Run;
    RunAnswersAsExpected(events);
  }

  // The i-th answer is Expected, seen from the moment it is given.
  lemma NextAnswer(history: seq<Event>, event: Event)
    ensures Run(history + [event]).0 == Step(Run(history).0, event).0
    ensures Step(Run(history).0, event).1 == Expected(history + [event], |history|)
  {
    hide Step, Expected;
    assert (history + [event])[..|history|] == history;
    RunAnswersAsExpected(history);
    StepTracks(history, Run(history).0, event);
  }

  // ---- The objects ----

  class BackendSupervisionPolicy {
    var failures: nat
    var givenUp: bool
    var migrationRecoveryPrompted: bool
    ghost var history: seq<Event>

    ghost predicate Valid()
      reads this
    {
      Policy(failures, givenUp, migrationRecoveryPrompted) == Run(history).0
    }

    constructor ()
      ensures Valid() && history == []
    {
      failures, givenUp, migrationRecoveryPrompted := 0, false, false;
      history := [];
    }

    // Also recordReadiness().
    method ResetFailures()
      requires Valid()
      modifies this
      ensures Valid() && history == old(history) + [Reset]
      ensures failures == 0 && !givenUp && migrationRecoveryPrompted == old(migrationRecoveryPrompted)
    {
      hide Run, Expected;
      NextAnswer(history, Reset);
      failures, givenUp := 0, false;
      history := history + [Reset];
    }

    method RespondToStartFailure(input: StartFailure) returns (response: Response)
      requires Valid()
      modifies this
      ensures Valid() && history == old(history) + [Failed(input)]
      ensures Some(response) == Expected(history, |history| - 1)
    {
      hide Run, Expected, RestartDelayMs;
      NextAnswer(history, Failed(input));
      history := history + [Failed(input)];
      if input.quitting || input.restartPending {
        return Ignore;
      }
      if input.markerPresent && !migrationRecoveryPrompted {
        migrationRecoveryPrompted := true;
        return RecoverMigration;
      }
      if givenUp {
        return GiveUp(failures);
      }
      failures := failures + 1;
      if failures >= BACKEND_MAX_CONSECUTIVE_START_FAILURES {
        givenUp := true;
        return GiveUp(failures);
      }
      return Retry(RestartDelayMs(failures), failures);
    }
  }

  function StripCR(s: string): string {
    if s == "" then "" else (if s[0] == '\r' then "" else [s[0]]) + StripCR(s[1..])
  }

  lemma {:induction false} StripCRConcat(s: string, t: string)
    ensures StripCR(s + t) == StripCR(s) + StripCR(t)
  {
    if s == "" {
      assert s + t == t;
    } else {
      assert (s + t)[1..] == s[1..] + t;
      StripCRConcat(s[1..], t);
    }
  }

  lemma StripCROne(c: char)
    ensures StripCR([c]) == if c == '\r' then "" else [c]
  {
    assert [c][1..] == "";
    assert StripCR("") == "";
  }

  // No carriage return is left, and every other character as often as before.
  lemma {:induction false} StripCRMeans(s: string)
    ensures '\r' !in StripCR(s)
    ensures forall c :: c != '\r' ==> multiset(StripCR(s))[c] == multiset(s)[c]
  {
    if s != "" {
      StripCRMeans(s[1..]);
      assert s == [s[0]] + s[1..];
    }
  }

  function LastChars(s: string, n: nat): string {
    if |s| <= n then s else s[|s| - n..]
  }

  // The end of the text, all of it if it is short enough.
  ghost predicate IsEndOf(end: string, s: string, n: nat) {
    (exists before :: s == before + end) && |end| == if |s| <= n then |s| else n
  }

  lemma LastCharsIsTheEnd(s: string, n: nat)
    ensures IsEndOf(LastChars(s, n), s, n)
  {
    var end := LastChars(s, n);
    assert s == s[..|s| - |end|] + end;
  }

  class BackendOutputTailDetector {
    var tail: string
    ghost var output: string    // the concatenation of all decoded chunks

    ghost predicate Valid()
      reads this
    {
      tail == LastChars(StripCR(output), BACKEND_FAILURE_OUTPUT_TAIL_CHARS)
    }

    constructor ()
      ensures Valid() && output == ""
    {
      tail, output := "", "";
    }

    method Push(text: string)
      requires Valid()
      modifies this
      ensures Valid() && output == old(output) + text
    {
      StripCRConcat(output, text);
      output := output + text;
      tail := tail + StripCR(text);
      if |tail| > BACKEND_FAILURE_OUTPUT_TAIL_CHARS {
        tail := tail[|tail| - BACKEND_FAILURE_OUTPUT_TAIL_CHARS..];
      }
    }

    method Read() returns (text: string)
      requires Valid()
      ensures IsEndOf(text, StripCR(output), BACKEND_FAILURE_OUTPUT_TAIL_CHARS)
    {
      LastCharsIsTheEnd(StripCR(output), BACKEND_FAILURE_OUTPUT_TAIL_CHARS);
      text := tail;
    }
  }
}
