/**
 * HeartbeatManager: one heartbeat in flight, concurrent calls coalesced, failures retried with backoff.
 *
 * An async method runs undisturbed between two awaits, so the manager's methods are cut there: a
 * suspended `drainQueue` is a `Drain` holding its locals and what it waits for, and every event resumes
 * one of them or is a new call. The port is assumed not to call `heartbeat` back before it returns.
 */
module Heartbeat {
  import opened Arithmetic
  import opened Text

  datatype Input = Input(workspaceId: string, sessionId: string, agentId: Option<string>, wuId: Option<string>)

  datatype Reply = Reply(serverTime: string, nextHeartbeatMs: Option<int>, coalescedSignals: Option<int>)

  datatype Options = Options(maxAttempts: int, baseBackoffMs: int, maxBackoffMs: int)

  /** The options as a caller gives them: each may be missing. */
  datatype GivenOptions = GivenOptions(
    maxAttempts: Option<int>, baseBackoffMs: Option<int>, maxBackoffMs: Option<int>)

  const DEFAULT_MAX_ATTEMPTS := 3
  const DEFAULT_BASE_BACKOFF_MS := 500
  const DEFAULT_MAX_BACKOFF_MS := 30_000

  datatype Waiting =
    | Port                       // for the port
    | Sleep                      // for the backoff sleep
    | SendReturned(reply: Reply) // sendWithRetry has returned; drainQueue has not resumed
    | SendThrew                  // sendWithRetry has thrown; drainQueue has not resumed
    | Settled(outcome: Option<Reply>)  // drainQueue has settled; `finally` has not run

  datatype Drain = Drain(waiting: Waiting, input: Input, localCoalesced: int, attempt: int)

  /** What an observer of the manager sees; kept only to state properties. */
  datatype Observation =
    | Began(input: Input)        // sendWithRetry starts on an input
    | Sent(input: Input)         // the port is called
    | PortOk
    | PortFailed
    | Slept(ms: int)
    | Coalesced(input: Input)
    | Took                       // a drain empties the queue
    | Delivered(count: int)      // a drain returns, adding this many signals to its reply
    | Dropped(count: int)        // a drain throws with this many signals counted

  datatype State = State(
    inFlight: Option<nat>, queuedInput: Option<Input>, queuedSignals: int, consecutiveFailures: int,
    drains: map<nat, Drain>, started: nat, trace: seq<Observation>)

  datatype Event =
    | Call(input: Input)
    | PortReplied(drain: nat, reply: Reply)
    | PortThrew(drain: nat)
    | SleepEnded(drain: nat)
    | SleepThrew(drain: nat)
    | DrainResumed(drain: nat)
    | CallFinished(drain: nat)

  function BackoffDelayMs(o: Options, failures: int): int {
    Min(o.baseBackoffMs * Pow2(Max(0, failures - 1)), o.maxBackoffMs)
  }

  function Merge(reply: Reply, localCoalesced: int): Reply {
    var merged := reply.coalescedSignals.GetOr(0) + localCoalesced;
    if merged > 0 then reply.(coalescedSignals := Some(merged)) else reply
  }

  predicate Enabled(s: State, e: Event) {
    match e
    case Call(_) => true
    case PortReplied(d, _) => d in s.drains && s.drains[d].waiting.Port?
    case PortThrew(d) => d in s.drains && s.drains[d].waiting.Port?
    case SleepEnded(d) => d in s.drains && s.drains[d].waiting.Sleep?
    case SleepThrew(d) => d in s.drains && s.drains[d].waiting.Sleep?
    case DrainResumed(d) => d in s.drains && (s.drains[d].waiting.SendReturned? || s.drains[d].waiting.SendThrew?)
    case CallFinished(d) => d in s.drains && s.drains[d].waiting.Settled?
  }

  function Next(o: Options, s: State, e: Event): State
    requires Enabled(s, e)
  {
    match e
    case Call(input) =>
      if s.inFlight.Some? then
        s.(queuedInput := Some(input), queuedSignals := s.queuedSignals + 1, trace := s.trace + [Coalesced(input)])
      else
        s.(inFlight := Some(s.started), started := s.started + 1,
           drains := s.drains[s.started := Drain(Port, input, 0, 0)],
           trace := s.trace + [Began(input)] + [Sent(input)])
    case PortReplied(d, reply) =>
      s.(consecutiveFailures := 0, drains := s.drains[d := s.drains[d].(waiting := SendReturned(reply))],
         trace := s.trace + [PortOk])
    case PortThrew(d) =>
      var attempt := s.drains[d].attempt + 1;
      var failed := s.(consecutiveFailures := s.consecutiveFailures + 1, trace := s.trace + [PortFailed]);
      if attempt >= o.maxAttempts then
        failed.(drains := s.drains[d := s.drains[d].(waiting := SendThrew, attempt := attempt)])
      else
        failed.(drains := s.drains[d := s.drains[d].(waiting := Sleep, attempt := attempt)],
                trace := failed.trace + [Slept(BackoffDelayMs(o, s.consecutiveFailures + 1))])
    case SleepEnded(d) =>
      s.(drains := s.drains[d := s.drains[d].(waiting := Port)], trace := s.trace + [Sent(s.drains[d].input)])
    case SleepThrew(d) =>
      s.(drains := s.drains[d := s.drains[d].(waiting := SendThrew)])
    case DrainResumed(d) =>
      var drain := s.drains[d];
      if drain.waiting.SendThrew? then
        s.(drains := s.drains[d := drain.(waiting := Settled(None))],
           trace := s.trace + [Dropped(drain.localCoalesced)])
      else
        var local := drain.localCoalesced + s.queuedSignals;
        var taken := s.(queuedInput := None, queuedSignals := 0, trace := s.trace + [Took]);
        (match s.queuedInput
         case None =>
          taken.(drains := s.drains[d := drain.(waiting := Settled(Some(Merge(drain.waiting.reply, local))),
                                                localCoalesced := local)],
                 trace := taken.trace + [Delivered(local)])
         case Some(next) =>
          taken.(drains := s.drains[d := Drain(Port, next, local, 0)],
                 trace := taken.trace + [Began(next)] + [Sent(next)]))
    case CallFinished(d) =>
      s.(inFlight := None, drains := s.drains - {d})
  }

  function Start(): State {
    State(None, None, 0, 0, map[], 0, [])
  }

  // ---------------------------------------------------------------------------------------------
  // The class, one method per piece of code between awaits
  // ---------------------------------------------------------------------------------------------

  class HeartbeatManager {
    const options: Options
    var inFlight: Option<nat>
    var queuedInput: Option<Input>
    var queuedSignals: int
    var consecutiveFailures: int
    var drains: map<nat, Drain>  // the suspended drainQueue calls
    var started: nat
    ghost var trace: seq<Observation>

    ghost function View(): State
      reads this
    {
      State(inFlight, queuedInput, queuedSignals, consecutiveFailures, drains, started, trace)
    }

    constructor (given: GivenOptions)
      ensures options.maxAttempts == if given.maxAttempts.Some? then given.maxAttempts.value else 3
      ensures options.baseBackoffMs == if given.baseBackoffMs.Some? then given.baseBackoffMs.value else 500
      ensures options.maxBackoffMs == if given.maxBackoffMs.Some? then given.maxBackoffMs.value else 30_000
      ensures View() == Start()
      ensures inFlight.None? && queuedInput.None? && queuedSignals == 0 && consecutiveFailures == 0
    {
      options := Options(
        given.maxAttempts.GetOr(DEFAULT_MAX_ATTEMPTS),
        given.baseBackoffMs.GetOr(DEFAULT_BASE_BACKOFF_MS),
        given.maxBackoffMs.GetOr(DEFAULT_MAX_BACKOFF_MS));
      inFlight, queuedInput, queuedSignals, consecutiveFailures := None, None, 0, 0;
      drains, started, trace := map[], 0, [];
    }

    /** `heartbeat` up to its await: join the drain in flight, or start one that calls the port. */
    method Heartbeat(input: Input)
      modifies this
      ensures View() == Next(options, old(View()), Call(input))
    {
      if inFlight.Some? {
        queuedInput := Some(input);
        queuedSignals := queuedSignals + 1;
        trace := trace + [Coalesced(input)];
        return;
      }
      var request := started;
      started := started + 1;
      drains := drains[request := Drain(Port, input, 0, 0)];
      trace := trace + [Began(input)] + [Sent(input)];
      inFlight := Some(request);
    }

    /** `sendWithRetry` after the port replied. */
    method OnPortReply(d: nat, reply: Reply)
      requires Enabled(View(), PortReplied(d, reply))
      modifies this
      ensures View() == Next(options, old(View()), PortReplied(d, reply))
    {
      consecutiveFailures := 0;
      drains := drains[d := drains[d].(waiting := SendReturned(reply))];
      trace := trace + [PortOk];
    }

    method GetBackoffDelayMs() returns (delayMs: int)
      ensures delayMs == BackoffDelayMs(options, consecutiveFailures)
    {
      var exponent := Max(0, consecutiveFailures - 1);
      delayMs := Min(options.baseBackoffMs * Pow2(exponent), options.maxBackoffMs);
    }

    /** `sendWithRetry` after the port threw: give up, or compute the delay and go to sleep. */
    method OnPortError(d: nat)
      requires Enabled(View(), PortThrew(d))
      modifies this
      ensures View() == Next(options, old(View()), PortThrew(d))
    {
      var drain := drains[d];
      consecutiveFailures := consecutiveFailures + 1;
      drain := drain.(attempt := drain.attempt + 1);
      trace := trace + [PortFailed];
      if drain.attempt >= options.maxAttempts {
        drains := drains[d := drain.(waiting := SendThrew)];
        return;
      }
      var delayMs := GetBackoffDelayMs();
      trace := trace + [Slept(delayMs)];
      drains := drains[d := drain.(waiting := Sleep)];
    }

    /** `sendWithRetry` after the sleep: around its loop and back to the port, or out with the sleep's error. */
    method OnSleepOver(d: nat, threw: bool)
      requires Enabled(View(), SleepEnded(d))
      modifies this
      ensures View() == Next(options, old(View()), if threw then SleepThrew(d) else SleepEnded(d))
    {
      if threw {
        drains := drains[d := drains[d].(waiting := SendThrew)];
      } else {
        trace := trace + [Sent(drains[d].input)];
        drains := drains[d := drains[d].(waiting := Port)];
      }
    }

    /** `drainQueue` once `sendWithRetry` has settled: take the queue, then loop or return. */
    method ResumeDrain(d: nat)
      requires Enabled(View(), DrainResumed(d))
      modifies this
      ensures View() == Next(options, old(View()), DrainResumed(d))
    {
      var drain := drains[d];
      if drain.waiting.SendThrew? {
        drains := drains[d := drain.(waiting := Settled(None))];
        trace := trace + [Dropped(drain.localCoalesced)];
        return;
      }
      var result := drain.waiting.reply;
      var queued := queuedInput;
      drain := drain.(localCoalesced := drain.localCoalesced + queuedSignals);
      queuedInput := None;
      queuedSignals := 0;
      trace := trace + [Took];
      if queued.None? {
        var merged := result.coalescedSignals.GetOr(0) + drain.localCoalesced;
        if merged > 0 {
          result := result.(coalescedSignals := Some(merged));
        }
        drains := drains[d := drain.(waiting := Settled(Some(result)))];
        trace := trace + [Delivered(drain.localCoalesced)];
        return;
      }
      drains := drains[d := Drain(Port, queued.value, drain.localCoalesced, 0)];
      trace := trace + [Began(queued.value)] + [Sent(queued.value)];
    }

    /** The `finally` of the call that started the drain. */
    method FinishCall(d: nat)
      requires Enabled(View(), CallFinished(d))
      modifies this
      ensures View() == Next(options, old(View()), CallFinished(d))
    {
      drains := drains - {d};
      inFlight := None;
    }
  }

  // ---------------------------------------------------------------------------------------------
  // Reading the trace
  // ---------------------------------------------------------------------------------------------

  datatype Tally = Tally(
    pendingInput: Option<Input>,  // the latest input coalesced since the queue was last taken
    pendingCount: nat,            // and how many were
    coalesced: nat,               // inputs coalesced so far
    delivered: int,               // signals added to replies so far
    dropped: int,                 // signals dropped by drains that threw
    failures: nat,                // port calls failed since one last succeeded
    calls: nat,                   // port calls for the input begun last
    slept: int,                   // total sleep for the input begun last
    delays: seq<int>,             // delays since a port call last succeeded, oldest first
    unslept: nat,                 // port calls failed since one last succeeded or was slept on
    begun: Option<Input>)         // the input begun last

  function Count(t: Tally, x: Observation): Tally {
    match x
    case Began(input) => t.(calls := 0, slept := 0, begun := Some(input))
    case Sent(_) => t.(calls := t.calls + 1)
    case PortOk => t.(failures := 0, delays := [], unslept := 0)
    case PortFailed => t.(failures := t.failures + 1, unslept := t.unslept + 1)
    case Slept(ms) => t.(slept := t.slept + ms, delays := t.delays + [ms], unslept := 0)
    case Coalesced(input) =>
      t.(pendingInput := Some(input), pendingCount := t.pendingCount + 1, coalesced := t.coalesced + 1)
    case Took => t.(pendingInput := None, pendingCount := 0)
    case Delivered(count) => t.(delivered := t.delivered + count)
    case Dropped(count) => t.(dropped := t.dropped + count)
  }

  function TallyOf(trace: seq<Observation>): Tally {
    if trace == [] then Tally(None, 0, 0, 0, 0, 0, 0, 0, [], 0, None)
    else Count(TallyOf(trace[..|trace| - 1]), trace[|trace| - 1])
  }

  lemma TallyOneMore(trace: seq<Observation>, x: Observation)
    ensures TallyOf(trace + [x]) == Count(TallyOf(trace), x)
  {
    assert (trace + [x])[..|trace + [x]| - 1] == trace;
  }

  /** The tally after one event. */
  function TallyNext(o: Options, s: State, e: Event, t: Tally): Tally
    requires Enabled(s, e)
  {
    match e
    case Call(input) =>
      if s.inFlight.Some? then Count(t, Coalesced(input)) else Count(Count(t, Began(input)), Sent(input))
    case PortReplied(_, _) => Count(t, PortOk)
    case PortThrew(d) =>
      if s.drains[d].attempt + 1 >= o.maxAttempts then Count(t, PortFailed)
      else Count(Count(t, PortFailed), Slept(BackoffDelayMs(o, s.consecutiveFailures + 1)))
    case SleepEnded(d) => Count(t, Sent(s.drains[d].input))
    case SleepThrew(_) => t
    case DrainResumed(d) =>
      if s.drains[d].waiting.SendThrew? then Count(t, Dropped(s.drains[d].localCoalesced))
      else if s.queuedInput.None? then
        Count(Count(t, Took), Delivered(s.drains[d].localCoalesced + s.queuedSignals))
      else
        Count(Count(Count(t, Took), Began(s.queuedInput.value)), Sent(s.queuedInput.value))
    case CallFinished(_) => t
  }

  lemma TallyTwoMore(trace: seq<Observation>, x: Observation, y: Observation)
    ensures TallyOf(trace + [x] + [y]) == Count(Count(TallyOf(trace), x), y)
  {
    TallyOneMore(trace, x);
    TallyOneMore(trace + [x], y);
  }

  lemma TallyStep(o: Options, s: State, e: Event)
    requires Enabled(s, e)
    ensures TallyOf(Next(o, s, e).trace) == TallyNext(o, s, e, TallyOf(s.trace))
  {
    match e {
      case Call(input) =>
        TallyOneMore(s.trace, Coalesced(input));
        TallyTwoMore(s.trace, Began(input), Sent(input));
      case PortReplied(_, _) => TallyOneMore(s.trace, PortOk);
      case PortThrew(_) =>
        TallyOneMore(s.trace, PortFailed);
        TallyTwoMore(s.trace, PortFailed, Slept(BackoffDelayMs(o, s.consecutiveFailures + 1)));
      case SleepEnded(d) => TallyOneMore(s.trace, Sent(s.drains[d].input));
      case SleepThrew(_) =>
      case DrainResumed(d) =>
        if s.drains[d].waiting.SendThrew? {
          TallyOneMore(s.trace, Dropped(s.drains[d].localCoalesced));
        } else if s.queuedInput.None? {
          TallyTwoMore(s.trace, Took, Delivered(s.drains[d].localCoalesced + s.queuedSignals));
        } else {
          TallyTwoMore(s.trace, Took, Began(s.queuedInput.value));
          TallyOneMore(s.trace + [Took] + [Began(s.queuedInput.value)], Sent(s.queuedInput.value));
        }
      case CallFinished(_) =>
    }
  }

  // ---------------------------------------------------------------------------------------------
  // What one step keeps
  // ---------------------------------------------------------------------------------------------

  /** The drains alive are exactly the one in flight. */
  predicate SingleFlight(s: State) {
    && s.drains.Keys == (if s.inFlight.Some? then {s.inFlight.value} else {})
    && (s.inFlight.Some? ==> s.inFlight.value < s.started)
  }

  predicate QueueMatches(s: State, t: Tally) {
    && s.queuedInput == t.pendingInput
    && s.queuedSignals == t.pendingCount
    && (s.queuedSignals > 0 <==> s.queuedInput.Some?)
  }

  /** The count held by the running drain; a settled one has already delivered or dropped it. */
  function RunningCount(s: State): int {
    if s.inFlight.Some? && s.inFlight.value in s.drains && !s.drains[s.inFlight.value].waiting.Settled?
    then s.drains[s.inFlight.value].localCoalesced
    else 0
  }

  predicate SignalsConserved(s: State, t: Tally) {
    t.coalesced == s.queuedSignals + RunningCount(s) + t.delivered + t.dropped
  }

  function AttemptLimit(o: Options): int {
    Max(1, o.maxAttempts)
  }

  /** How far the input begun last has got: its port calls and sleeps against its failed attempts. */
  predicate AttemptsMatch(o: Options, d: Drain, t: Tally) {
    && 0 <= d.attempt
    && match d.waiting
       case Port => d.attempt < AttemptLimit(o) && t.calls == d.attempt + 1 && t.slept <= d.attempt * o.maxBackoffMs
       case Sleep => d.attempt < o.maxAttempts && t.calls == d.attempt && t.slept <= d.attempt * o.maxBackoffMs
       case _ => t.calls <= AttemptLimit(o) && t.slept <= (AttemptLimit(o) - 1) * o.maxBackoffMs
  }

  predicate RetriesBounded(o: Options, s: State, t: Tally) {
    && s.consecutiveFailures == t.failures
    && t.calls <= AttemptLimit(o)
    && t.slept <= (AttemptLimit(o) - 1) * o.maxBackoffMs
    && (s.inFlight.Some? && s.inFlight.value in s.drains ==> AttemptsMatch(o, s.drains[s.inFlight.value], t))
  }

  /** Delays of the current failing run rise with the failure count and respect the cap. */
  predicate DelaysRise(o: Options, t: Tally) {
    && (forall i :: 0 <= i < |t.delays| ==> t.delays[i] <= BackoffDelayMs(o, t.failures) <= o.maxBackoffMs)
    && (forall i, j :: 0 <= i < j < |t.delays| ==> t.delays[i] <= t.delays[j])
  }

  lemma StepKeepsSingleFlight(o: Options, s: State, e: Event)
    requires SingleFlight(s) && Enabled(s, e)
    ensures SingleFlight(Next(o, s, e))
  {
  }

  lemma StepKeepsQueue(o: Options, s: State, e: Event, t: Tally)
    requires Enabled(s, e) && QueueMatches(s, t)
    ensures QueueMatches(Next(o, s, e), TallyNext(o, s, e, t))
  {
  }

  lemma StepConservesSignals(o: Options, s: State, e: Event, t: Tally)
    requires Enabled(s, e) && SingleFlight(s) && QueueMatches(s, t) && SignalsConserved(s, t)
    ensures SignalsConserved(Next(o, s, e), TallyNext(o, s, e, t))
  {
  }

  lemma MulLess(a: int, b: int, m: int)
    requires a <= b && 0 <= m
    ensures a * m <= b * m
  {
  }

  lemma FailureBoundsRetries(o: Options, s: State, d: nat, t: Tally)
    requires Enabled(s, PortThrew(d)) && SingleFlight(s) && 0 <= o.maxBackoffMs && RetriesBounded(o, s, t)
    ensures RetriesBounded(o, Next(o, s, PortThrew(d)), TallyNext(o, s, PortThrew(d), t))
  {
    var attempt := s.drains[d].attempt;
    assert AttemptsMatch(o, s.drains[d], t);
    MulLess(attempt, AttemptLimit(o) - 1, o.maxBackoffMs);
    OneMoreCap(attempt, o.maxBackoffMs);
    if attempt + 1 < o.maxAttempts {
      MulLess(attempt + 1, AttemptLimit(o) - 1, o.maxBackoffMs);
    }
  }

  lemma OneMoreCap(attempt: int, cap: int)
    ensures (attempt + 1) * cap == attempt * cap + cap
  {
  }

  lemma StepBoundsRetries(o: Options, s: State, e: Event, t: Tally)
    requires Enabled(s, e) && SingleFlight(s) && 0 <= o.maxBackoffMs && RetriesBounded(o, s, t)
    ensures RetriesBounded(o, Next(o, s, e), TallyNext(o, s, e, t))
  {
    if e.PortThrew? {
      FailureBoundsRetries(o, s, e.drain, t);
    } else if e.SleepEnded? || e.SleepThrew? || e.PortReplied? {
      assert AttemptsMatch(o, s.drains[e.drain], t);
      MulLess(s.drains[e.drain].attempt, AttemptLimit(o) - 1, o.maxBackoffMs);
    } else {
      MulLess(0, AttemptLimit(o) - 1, o.maxBackoffMs);
    }
  }

  lemma BackoffRises(o: Options, failures: nat)
    requires 0 <= o.baseBackoffMs
    ensures BackoffDelayMs(o, failures) <= BackoffDelayMs(o, failures + 1) <= o.maxBackoffMs
  {
    if failures > 0 {
      Pow2Rises(failures - 1);
      MulLess(Pow2(failures - 1), Pow2(failures), o.baseBackoffMs);
    }
  }

  lemma StepKeepsDelaysRising(o: Options, s: State, e: Event, t: Tally)
    requires Enabled(s, e) && 0 <= o.baseBackoffMs
    requires s.consecutiveFailures == t.failures && DelaysRise(o, t)
    ensures DelaysRise(o, TallyNext(o, s, e, t))
  {
    if e.PortThrew? {
      BackoffRises(o, t.failures);
    }
  }

  // ---------------------------------------------------------------------------------------------
  // What holds in every reachable state
  // ---------------------------------------------------------------------------------------------

  ghost predicate IsRun(o: Options, states: seq<State>, events: seq<Event>) {
    && |states| == |events| + 1
    && states[0] == Start()
    && forall i :: 0 <= i < |events| ==> Enabled(states[i], events[i]) && states[i + 1] == Next(o, states[i], events[i])
  }

  /**
   * Every signal coalesced is in the queue, in the running drain, in a delivered reply, or was dropped
   * by a drain that threw; and the queue holds the latest input coalesced since it was last taken.
   */
  lemma {:induction false} SignalsAreConserved(o: Options, states: seq<State>, events: seq<Event>, n: nat)
    requires IsRun(o, states, events) && n < |states|
    ensures SingleFlight(states[n])
    ensures QueueMatches(states[n], TallyOf(states[n].trace))
    ensures SignalsConserved(states[n], TallyOf(states[n].trace))
  {
    if n > 0 {
      SignalsAreConserved(o, states, events, n - 1);
      StepKeepsSingleFlight(o, states[n - 1], events[n - 1]);
      TallyStep(o, states[n - 1], events[n - 1]);
      StepKeepsQueue(o, states[n - 1], events[n - 1], TallyOf(states[n - 1].trace));
      StepConservesSignals(o, states[n - 1], events[n - 1], TallyOf(states[n - 1].trace));
    }
  }

  function OutstandingCalls(s: State): set<nat> {
    set d | d in s.drains && s.drains[d].waiting.Port?
  }

  /** At most one drain and one port call at any time; a `finally` clears only its own drain. */
  lemma OnlyOneInFlight(o: Options, states: seq<State>, events: seq<Event>, n: nat)
    requires IsRun(o, states, events) && n < |states|
    ensures |states[n].drains| <= 1 && |OutstandingCalls(states[n])| <= 1
    ensures n < |events| && events[n].CallFinished? ==> states[n].inFlight == Some(events[n].drain)
  {
    SignalsAreConserved(o, states, events, n);
    var s := states[n];
    if s.inFlight.Some? {
      SubsetOfOne(OutstandingCalls(s), s.inFlight.value);
    } else {
      assert OutstandingCalls(s) == {};
    }
    assert |s.drains| == |s.drains.Keys|;
  }

  lemma SubsetOfOne(a: set<nat>, x: nat)
    requires a <= {x}
    ensures |a| <= 1
  {
    assert a == {} || a == {x};
  }

  /**
   * The failure count is the trailing run of failed port calls over the whole history; no input costs
   * more than max(1, maxAttempts) calls or sleeps more than one delay cap per retry.
   */
  lemma {:induction false} RetriesAreBounded(o: Options, states: seq<State>, events: seq<Event>, n: nat)
    requires IsRun(o, states, events) && n < |states| && 0 <= o.maxBackoffMs
    ensures RetriesBounded(o, states[n], TallyOf(states[n].trace))
  {
    if n > 0 {
      RetriesAreBounded(o, states, events, n - 1);
      SignalsAreConserved(o, states, events, n - 1);
      TallyStep(o, states[n - 1], events[n - 1]);
      StepBoundsRetries(o, states[n - 1], events[n - 1], TallyOf(states[n - 1].trace));
    }
  }

  /** Within a failing run, delays never decrease and never exceed the cap. */
  lemma {:induction false} DelaysNeverFall(o: Options, states: seq<State>, events: seq<Event>, n: nat)
    requires IsRun(o, states, events) && n < |states| && 0 <= o.baseBackoffMs && 0 <= o.maxBackoffMs
    ensures DelaysRise(o, TallyOf(states[n].trace))
  {
    if n > 0 {
      DelaysNeverFall(o, states, events, n - 1);
      RetriesAreBounded(o, states, events, n - 1);
      TallyStep(o, states[n - 1], events[n - 1]);
      StepKeepsDelaysRising(o, states[n - 1], events[n - 1], TallyOf(states[n - 1].trace));
    }
  }

  // ---------------------------------------------------------------------------------------------
  // How long the sleeps are, when a drain gives up, and what it sends and returns
  // ---------------------------------------------------------------------------------------------

  function Last(delays: seq<int>): int
    requires delays != []
  {
    delays[|delays| - 1]
  }

  /** The last delay is the one of the last failure slept on; before the first every failure was skipped. */
  predicate LastDelayFits(o: Options, t: Tally) {
    && (t.delays == [] ==> t.failures == t.unslept)
    && (t.delays != [] ==> t.unslept < t.failures && Last(t.delays) == BackoffDelayMs(o, t.failures - t.unslept))
  }

  /** Between two port calls at most one failure has not been slept on, and none on an input being retried. */
  predicate SkipsAtMostOne(s: State, t: Tally) {
    && t.unslept <= 1
    && (t.unslept == 1 ==> t.delays != [])
    && (s.inFlight.Some? && s.inFlight.value in s.drains ==>
          Unskipped(s.drains[s.inFlight.value], t))
  }

  predicate Unskipped(d: Drain, t: Tally) {
    && 0 <= d.attempt
    && (d.waiting.Port? && d.attempt > 0 ==> t.unslept == 0 && t.delays != [])
    && (d.waiting.Sleep? ==> t.unslept == 0 && t.delays != [])
  }

  lemma BackoffDoublesOnce(o: Options, failures: nat)
    requires 0 <= o.maxBackoffMs && 0 < failures
    ensures BackoffDelayMs(o, failures + 1) == Min(2 * BackoffDelayMs(o, failures), o.maxBackoffMs)
  {
    MulTwice(o.baseBackoffMs, Pow2(failures - 1));
  }

  lemma MulTwice(a: int, b: int)
    ensures a * (2 * b) == 2 * (a * b)
  {
  }

  lemma StepKeepsLastDelay(o: Options, s: State, e: Event, t: Tally)
    requires Enabled(s, e) && s.consecutiveFailures == t.failures && LastDelayFits(o, t)
    ensures LastDelayFits(o, TallyNext(o, s, e, t))
  {
  }

  lemma StepSkipsAtMostOne(o: Options, s: State, e: Event, t: Tally)
    requires Enabled(s, e) && SingleFlight(s) && 1 < o.maxAttempts && SkipsAtMostOne(s, t)
    ensures SkipsAtMostOne(Next(o, s, e), TallyNext(o, s, e, t))
  {
  }

  lemma {:induction false} RunsKeepDelays(o: Options, states: seq<State>, events: seq<Event>, n: nat)
    requires IsRun(o, states, events) && n < |states| && 0 <= o.maxBackoffMs
    ensures LastDelayFits(o, TallyOf(states[n].trace))
    ensures 1 < o.maxAttempts ==> SkipsAtMostOne(states[n], TallyOf(states[n].trace))
  {
    if n > 0 {
      var s, e := states[n - 1], events[n - 1];
      RunsKeepDelays(o, states, events, n - 1);
      RetriesAreBounded(o, states, events, n - 1);
      SignalsAreConserved(o, states, events, n - 1);
      TallyStep(o, s, e);
      StepKeepsLastDelay(o, s, e, TallyOf(s.trace));
      if 1 < o.maxAttempts {
        StepSkipsAtMostOne(o, s, e, TallyOf(s.trace));
      }
    }
  }

  /**
   * A sleep `ms` long fits what was seen before it, the failure it follows included: the first of a failing
   * run is the smaller of base and cap, and each further failure doubles that up to the cap. A drain that
   * gives up does so without a sleep, but its failure doubles the next delay all the same.
   */
  predicate DelayDoubles(o: Options, t: Tally, ms: int) {
    && (t.delays == [] ==> t.failures == 1 && ms == Min(o.baseBackoffMs, o.maxBackoffMs))
    && (t.delays != [] ==>
          && 1 <= t.unslept <= 2
          && (t.unslept == 1 ==> ms == Min(2 * Last(t.delays), o.maxBackoffMs))
          && (t.unslept == 2 ==> ms == Min(4 * Last(t.delays), o.maxBackoffMs)))
  }

  lemma NextDelayDoubles(o: Options, s: State, d: nat, t: Tally)
    requires Enabled(s, PortThrew(d)) && SingleFlight(s) && s.consecutiveFailures == t.failures
    requires 0 <= o.maxBackoffMs && LastDelayFits(o, t) && SkipsAtMostOne(s, t)
    ensures DelayDoubles(o, Count(t, PortFailed), BackoffDelayMs(o, s.consecutiveFailures + 1))
  {
    if t.delays != [] {
      BackoffDoublesOnce(o, t.failures);
      if t.unslept == 1 {
        BackoffDoublesOnce(o, t.failures - 1);
      }
    }
  }

  /** In every run each sleep, whichever drain takes it, fits the failures and the delays seen before it. */
  lemma {:induction false} BackoffDoubles(o: Options, states: seq<State>, events: seq<Event>, n: nat, p: nat)
    requires IsRun(o, states, events) && n < |states| && 0 <= o.maxBackoffMs
    requires p < |states[n].trace| && states[n].trace[p].Slept?
    ensures DelayDoubles(o, TallyOf(states[n].trace[..p]), states[n].trace[p].ms)
  {
    var s, e := states[n - 1], events[n - 1];
    assert states[n] == Next(o, s, e);
    if p < |s.trace| {
      assert states[n].trace[..p] == s.trace[..p];
      BackoffDoubles(o, states, events, n - 1, p);
    } else {
      assert states[n].trace[..p] == s.trace + [PortFailed];
      TallyOneMore(s.trace, PortFailed);
      SignalsAreConserved(o, states, events, n - 1);
      RetriesAreBounded(o, states, events, n - 1);
      RunsKeepDelays(o, states, events, n - 1);
      NextDelayDoubles(o, s, e.drain, TallyOf(s.trace));
    }
  }

  /** A failed port call ends its drain exactly if it was the last of max(1, maxAttempts) for this input. */
  lemma GivesUpIff(o: Options, states: seq<State>, events: seq<Event>, n: nat)
    requires IsRun(o, states, events) && n < |events| && events[n].PortThrew? && 0 <= o.maxBackoffMs
    ensures var s, t := states[n], states[n + 1];
            var calls := TallyOf(s.trace).calls;
            if calls == (if o.maxAttempts < 1 then 1 else o.maxAttempts)
            then t.trace == s.trace + [PortFailed] && t.drains[events[n].drain].waiting.SendThrew?
            else |t.trace| == |s.trace| + 2 && t.trace[|s.trace| + 1].Slept? && t.drains[events[n].drain].waiting.Sleep?
  {
    SignalsAreConserved(o, states, events, n);
    RetriesAreBounded(o, states, events, n);
    assert states[n + 1] == Next(o, states[n], events[n]);
    assert AttemptsMatch(o, states[n].drains[events[n].drain], TallyOf(states[n].trace));
  }

  /** The drain in flight works on the input begun last. */
  predicate WorksOnBegun(s: State, t: Tally) {
    s.inFlight.Some? && s.inFlight.value in s.drains ==> t.begun == Some(s.drains[s.inFlight.value].input)
  }

  lemma StepWorksOnBegun(o: Options, s: State, e: Event, t: Tally)
    requires Enabled(s, e) && SingleFlight(s) && WorksOnBegun(s, t)
    ensures WorksOnBegun(Next(o, s, e), TallyNext(o, s, e, t))
  {
  }

  lemma {:induction false} RunsWorkOnBegun(o: Options, states: seq<State>, events: seq<Event>, n: nat)
    requires IsRun(o, states, events) && n < |states|
    ensures WorksOnBegun(states[n], TallyOf(states[n].trace))
  {
    if n > 0 {
      RunsWorkOnBegun(o, states, events, n - 1);
      SignalsAreConserved(o, states, events, n - 1);
      TallyStep(o, states[n - 1], events[n - 1]);
      StepWorksOnBegun(o, states[n - 1], events[n - 1], TallyOf(states[n - 1].trace));
    }
  }

  lemma SendingStep(o: Options, s: State, e: Event, p: nat)
    requires Enabled(s, e) && SingleFlight(s) && WorksOnBegun(s, TallyOf(s.trace))
    requires |s.trace| <= p < |Next(o, s, e).trace| && Next(o, s, e).trace[p].Sent?
    ensures TallyOf(Next(o, s, e).trace[..p]).begun == Some(Next(o, s, e).trace[p].input)
  {
    var trace := Next(o, s, e).trace;
    if e.SleepEnded? {
      assert trace[..p] == s.trace;
    } else if e.Call? {
      assert trace[..p] == s.trace + [Began(e.input)];
      TallyOneMore(s.trace, Began(e.input));
    } else {
      assert trace[..p] == s.trace + [Took] + [Began(s.queuedInput.value)];
      TallyTwoMore(s.trace, Took, Began(s.queuedInput.value));
    }
  }

  /** In every run each port call, first or repeated, sends the input begun last. */
  lemma {:induction false} SendsWhatItBegan(o: Options, states: seq<State>, events: seq<Event>, n: nat, p: nat)
    requires IsRun(o, states, events) && n < |states| && p < |states[n].trace| && states[n].trace[p].Sent?
    ensures TallyOf(states[n].trace[..p]).begun == Some(states[n].trace[p].input)
  {
    var s, e := states[n - 1], events[n - 1];
    assert states[n] == Next(o, s, e);
    if p < |s.trace| {
      assert states[n].trace[..p] == s.trace[..p];
      SendsWhatItBegan(o, states, events, n - 1, p);
    } else {
      SignalsAreConserved(o, states, events, n - 1);
      RunsWorkOnBegun(o, states, events, n - 1);
      SendingStep(o, s, e, p);
    }
  }

  /** What the port replied last to this drain. */
  function LastReply(events: seq<Event>, d: nat): Option<Reply> {
    if events == [] then None
    else
      match events[|events| - 1]
      case PortReplied(x, reply) => if x == d then Some(reply) else LastReply(events[..|events| - 1], d)
      case _ => LastReply(events[..|events| - 1], d)
  }

  lemma {:induction false} HoldsLastReply(o: Options, states: seq<State>, events: seq<Event>, n: nat, d: nat)
    requires IsRun(o, states, events) && n <= |events|
    requires d in states[n].drains && states[n].drains[d].waiting.SendReturned?
    ensures LastReply(events[..n], d) == Some(states[n].drains[d].waiting.reply)
  {
    var s, e := states[n - 1], events[n - 1];
    assert states[n] == Next(o, s, e);
    assert events[..n][..n - 1] == events[..n - 1];
    if e.PortReplied? && e.drain == d {
    } else {
      HoldsLastReply(o, states, events, n - 1, d);
    }
  }

  /**
   * The answer of a drain that delivers is what the port replied last, with its signals added to the count;
   * one whose port call or sleep threw ends in that error without taking the queue or sending anything more.
   */
  lemma AnswerIsLastReply(o: Options, states: seq<State>, events: seq<Event>, n: nat)
    requires IsRun(o, states, events) && n < |events| && events[n].DrainResumed?
    ensures var s, t, d := states[n], states[n + 1], events[n].drain;
            var local := s.drains[d].localCoalesced + s.queuedSignals;
            if s.drains[d].waiting.SendThrew? then
              && t.drains[d].waiting == Settled(None) && t.queuedInput == s.queuedInput
              && t.trace == s.trace + [Dropped(s.drains[d].localCoalesced)]
            else
              && LastReply(events[..n], d).Some?
              && (s.queuedInput.None? ==> AnswersWith(t.drains[d].waiting, LastReply(events[..n], d).value, local))
  {
    assert states[n + 1] == Next(o, states[n], events[n]);
    if states[n].drains[events[n].drain].waiting.SendReturned? {
      HoldsLastReply(o, states, events, n, events[n].drain);
    }
  }

  /** The drain has returned this reply, with `local` more signals if that makes a positive count. */
  predicate AnswersWith(w: Waiting, reply: Reply, local: int) {
    && w.Settled? && w.outcome.Some?
    && w.outcome.value.serverTime == reply.serverTime
    && w.outcome.value.nextHeartbeatMs == reply.nextHeartbeatMs
    && var sum := (if reply.coalescedSignals.Some? then reply.coalescedSignals.value else 0) + local;
       w.outcome.value.coalescedSignals == if sum > 0 then Some(sum) else reply.coalescedSignals
  }

  /** A call with nothing in flight sends its own input; a sleep that throws sends nothing and ends the retries. */
  lemma CallsAndThrownSleeps(o: Options, states: seq<State>, events: seq<Event>, n: nat)
    requires IsRun(o, states, events) && n < |events|
    ensures events[n].Call? && states[n].inFlight.None? ==>
              states[n + 1].trace == states[n].trace + [Began(events[n].input)] + [Sent(events[n].input)]
    ensures events[n].SleepThrew? ==>
              && states[n + 1].trace == states[n].trace
              && states[n + 1].drains[events[n].drain].waiting.SendThrew?
  {
    assert states[n + 1] == Next(o, states[n], events[n]);
  }

  /** A reply reports the signals merged into it, unless the port's own count cancels them. */
  lemma MergeReportsSignals(reply: Reply, local: nat)
    ensures Merge(reply, local).coalescedSignals.GetOr(0) == reply.coalescedSignals.GetOr(0) + local
       <==> local == 0 || reply.coalescedSignals.GetOr(0) + local > 0
  {
  }

  ghost predicate Reachable(o: Options, s: State) {
    exists states: seq<State>, events: seq<Event> :: IsRun(o, states, events) && states[|events|] == s
  }

  lemma ReachStart(o: Options)
    ensures Reachable(o, Start())
  {
    var none: seq<Event> := [];
    assert IsRun(o, [Start()], none) && [Start()][|none|] == Start();
  }

  lemma ReachNext(o: Options, s: State, e: Event)
    requires Reachable(o, s) && Enabled(s, e)
    ensures Reachable(o, Next(o, s, e))
  {
    var states: seq<State>, events: seq<Event> :| IsRun(o, states, events) && states[|events|] == s;
    assert IsRun(o, states + [Next(o, s, e)], events + [e]);
    assert (states + [Next(o, s, e)])[|events + [e]|] == Next(o, s, e);
  }

  // ---------------------------------------------------------------------------------------------
  // Inputs left in the queue
  // ---------------------------------------------------------------------------------------------

  /** Where in the trace the input now queued was coalesced, if one is. */
  function QueuedFrom(trace: seq<Observation>): (at: Option<nat>)
    ensures at.Some? ==> at.value < |trace| && trace[at.value].Coalesced?
  {
    if trace == [] then None
    else if trace[|trace| - 1].Coalesced? then Some(|trace| - 1)
    else if trace[|trace| - 1].Took? then None
    else QueuedFrom(trace[..|trace| - 1])
  }

  /** A call has been coalesced since a drain last settled. */
  predicate CoalescedSinceSettled(trace: seq<Observation>) {
    trace != [] &&
    match trace[|trace| - 1]
    case Coalesced(_) => true
    case Delivered(_) => false
    case Dropped(_) => false
    case _ => CoalescedSinceSettled(trace[..|trace| - 1])
  }

  /** The drain that settled last threw, with a call coalesced before that and after the queue was last taken. */
  predicate CoalescedBeforeThrow(trace: seq<Observation>) {
    trace != [] &&
    match trace[|trace| - 1]
    case Dropped(_) => QueuedFrom(trace[..|trace| - 1]).Some?
    case Delivered(_) => false
    case Took => false
    case _ => CoalescedBeforeThrow(trace[..|trace| - 1])
  }

  lemma {:induction false} QueuedFromMeans(trace: seq<Observation>)
    ensures TallyOf(trace).pendingInput ==
            match QueuedFrom(trace) case None => None case Some(at) => Some(trace[at].input)
  {
    if trace != [] {
      QueuedFromMeans(trace[..|trace| - 1]);
    }
  }

  lemma QueuedFromOneMore(trace: seq<Observation>, x: Observation)
    ensures QueuedFrom(trace + [x]) ==
            if x.Coalesced? then Some(|trace|) else if x.Took? then None else QueuedFrom(trace)
    ensures CoalescedSinceSettled(trace + [x]) <==>
            x.Coalesced? || (!x.Delivered? && !x.Dropped? && CoalescedSinceSettled(trace))
    ensures CoalescedBeforeThrow(trace + [x]) <==>
            if x.Dropped? then QueuedFrom(trace).Some?
            else !x.Delivered? && !x.Took? && CoalescedBeforeThrow(trace)
  {
    assert (trace + [x])[..|trace + [x]| - 1] == trace;
  }

  /** What an event does to the queue: only calls that are coalesced fill it, and only resuming drains empty it. */
  lemma QueueStep(o: Options, s: State, e: Event)
    requires Enabled(s, e)
    ensures QueuedFrom(Next(o, s, e).trace) ==
            if e.Call? && s.inFlight.Some? then Some(|s.trace|)
            else if e.DrainResumed? && s.drains[e.drain].waiting.SendReturned? then None
            else QueuedFrom(s.trace)
  {
    match e {
      case Call(input) =>
        QueuedFromOneMore(s.trace, Coalesced(input));
        QueuedFromOneMore(s.trace, Began(input));
        QueuedFromOneMore(s.trace + [Began(input)], Sent(input));
      case PortReplied(_, _) => QueuedFromOneMore(s.trace, PortOk);
      case PortThrew(_) =>
        QueuedFromOneMore(s.trace, PortFailed);
        QueuedFromOneMore(s.trace + [PortFailed], Slept(BackoffDelayMs(o, s.consecutiveFailures + 1)));
      case SleepEnded(d) => QueuedFromOneMore(s.trace, Sent(s.drains[d].input));
      case SleepThrew(_) =>
      case DrainResumed(d) =>
        var local := s.drains[d].localCoalesced;
        ResumeQueueStep(s.trace, local, local + s.queuedSignals, s.queuedInput);
      case CallFinished(_) =>
    }
  }

  lemma ResumeQueueStep(trace: seq<Observation>, dropped: int, delivered: int, queued: Option<Input>)
    ensures QueuedFrom(trace + [Dropped(dropped)]) == QueuedFrom(trace)
    ensures QueuedFrom(trace + [Took] + [Delivered(delivered)]) == None
    ensures queued.Some? ==> QueuedFrom(trace + [Took] + [Began(queued.value)] + [Sent(queued.value)]) == None
  {
    QueuedFromOneMore(trace, Dropped(dropped));
    QueuedFromOneMore(trace, Took);
    QueuedFromOneMore(trace + [Took], Delivered(delivered));
    if queued.Some? {
      QueuedFromOneMore(trace + [Took], Began(queued.value));
      QueuedFromOneMore(trace + [Took] + [Began(queued.value)], Sent(queued.value));
    }
  }

  /** Once the drain in flight has settled, what is queued came after that, or before it threw. */
  predicate LeftoversFit(s: State) {
    s.inFlight.Some? && s.inFlight.value in s.drains && s.drains[s.inFlight.value].waiting.Settled? ==>
      (QueuedFrom(s.trace).Some? <==> CoalescedSinceSettled(s.trace) || CoalescedBeforeThrow(s.trace))
  }

  lemma SettlingFits(trace: seq<Observation>, count: int)
    ensures QueuedFrom(trace + [Dropped(count)]).Some? <==> CoalescedBeforeThrow(trace + [Dropped(count)])
    ensures !CoalescedSinceSettled(trace + [Dropped(count)])
    ensures QueuedFrom(trace + [Took] + [Delivered(count)]).None?
    ensures !CoalescedSinceSettled(trace + [Took] + [Delivered(count)])
    ensures !CoalescedBeforeThrow(trace + [Took] + [Delivered(count)])
  {
    QueuedFromOneMore(trace, Dropped(count));
    QueuedFromOneMore(trace, Took);
    QueuedFromOneMore(trace + [Took], Delivered(count));
  }

  lemma CallKeepsLeftovers(o: Options, s: State, input: Input)
    requires SingleFlight(s) && LeftoversFit(s)
    ensures LeftoversFit(Next(o, s, Call(input)))
  {
    QueuedFromOneMore(s.trace, Coalesced(input));
  }

  lemma ResumptionFitsLeftovers(o: Options, s: State, d: nat)
    requires SingleFlight(s) && Enabled(s, DrainResumed(d))
    ensures LeftoversFit(Next(o, s, DrainResumed(d)))
  {
    var drain := s.drains[d];
    SettlingFits(s.trace, drain.localCoalesced + if drain.waiting.SendThrew? then 0 else s.queuedSignals);
  }

  lemma StepKeepsLeftovers(o: Options, s: State, e: Event)
    requires SingleFlight(s) && LeftoversFit(s) && Enabled(s, e)
    ensures LeftoversFit(Next(o, s, e))
  {
    if e.Call? {
      CallKeepsLeftovers(o, s, e.input);
    } else if e.DrainResumed? {
      ResumptionFitsLeftovers(o, s, e.drain);
    }
  }

  lemma {:induction false} RunsKeepLeftovers(o: Options, states: seq<State>, events: seq<Event>, n: nat)
    requires IsRun(o, states, events) && n < |states|
    ensures LeftoversFit(states[n])
  {
    if n > 0 {
      RunsKeepLeftovers(o, states, events, n - 1);
      SignalsAreConserved(o, states, events, n - 1);
      StepKeepsLeftovers(o, states[n - 1], events[n - 1]);
    }
  }

  lemma QueueIsQueuedFrom(o: Options, states: seq<State>, events: seq<Event>, n: nat)
    requires IsRun(o, states, events) && n < |states|
    ensures states[n].queuedInput ==
            match QueuedFrom(states[n].trace) case None => None case Some(at) => Some(states[n].trace[at].input)
    ensures states[n].queuedSignals > 0 <==> QueuedFrom(states[n].trace).Some?
  {
    SignalsAreConserved(o, states, events, n);
    QueuedFromMeans(states[n].trace);
  }

  /**
   * A call that finishes leaves an input queued exactly if one was coalesced after its drain had settled,
   * or before it threw and after the queue was last taken.
   */
  lemma FinishLeavesQueueIff(o: Options, states: seq<State>, events: seq<Event>, n: nat)
    requires IsRun(o, states, events) && n < |events| && events[n].CallFinished?
    ensures var s := states[n + 1];
            && s.inFlight.None? && s.trace == states[n].trace
            && (s.queuedInput.Some? <==> CoalescedSinceSettled(s.trace) || CoalescedBeforeThrow(s.trace))
  {
    OnlyOneInFlight(o, states, events, n);
    RunsKeepLeftovers(o, states, events, n);
    QueueIsQueuedFrom(o, states, events, n);
    assert states[n + 1] == Next(o, states[n], events[n]);
  }

  // ---------------------------------------------------------------------------------------------
  // Inputs sent after newer ones
  // ---------------------------------------------------------------------------------------------

  /** Event m is a call that finds nothing in flight, and so starts a drain. */
  predicate StartsDrain(states: seq<State>, events: seq<Event>, m: nat)
    requires |states| == |events| + 1
  {
    m < |events| && events[m].Call? && states[m].inFlight.None?
  }

  /** At event r, after a reply, drain d begins an input that was coalesced before event m. */
  ghost predicate BeginsOlderAt(states: seq<State>, events: seq<Event>, m: nat, r: nat, d: nat)
    requires |states| == |events| + 1
  {
    && m < r < |events| && events[r] == DrainResumed(d)
    && d in states[r].drains && states[r].drains[d].waiting.SendReturned?
    && QueuedFrom(states[r].trace).Some?
    && QueuedFrom(states[r].trace).value < |states[m].trace|
  }

  /** Between events m and n no call comes and drain d is not resumed. */
  predicate Undisturbed(events: seq<Event>, m: nat, n: nat, d: nat) {
    n <= |events| && forall x :: m < x < n ==> !events[x].Call? && events[x] != DrainResumed(d)
  }

  lemma UndisturbedOneMore(events: seq<Event>, m: nat, n: nat, d: nat)
    requires Undisturbed(events, m, n, d) && n < |events| && !events[n].Call? && events[n] != DrainResumed(d)
    ensures Undisturbed(events, m, n + 1, d)
  {
  }

  /** Event r resumes drain d after its first sendWithRetry has returned, with no call since event m. */
  ghost predicate ReturnsUndisturbed(states: seq<State>, events: seq<Event>, m: nat, r: nat, d: nat)
    requires |states| == |events| + 1
  {
    && m < r < |events| && events[r] == DrainResumed(d)
    && d in states[r].drains && states[r].drains[d].waiting.SendReturned?
    && Undisturbed(events, m, r, d)
  }

  /** The drain has neither been resumed nor joined by a call: the queue is as event m found it. */
  ghost predicate Untouched(states: seq<State>, events: seq<Event>, m: nat, n: nat, d: nat)
    requires |states| == |events| + 1 && m < |states| && n < |states|
  {
    Pristine(states[n], d, QueuedFrom(states[m].trace)) && Undisturbed(events, m, n, d)
  }

  /** Whatever is queued was coalesced after event m. */
  predicate OnlyNewer(s: State, base: nat) {
    QueuedFrom(s.trace).Some? ==> QueuedFrom(s.trace).value >= base
  }

  /** The drain has settled or is gone. */
  predicate IsOver(s: State, d: nat) {
    d < s.started && (d in s.drains ==> s.drains[d].waiting.Settled?)
  }

  lemma NewerStaysNewer(o: Options, s: State, e: Event, base: nat)
    requires Enabled(s, e) && OnlyNewer(s, base) && base <= |s.trace|
    ensures OnlyNewer(Next(o, s, e), base)
  {
    QueueStep(o, s, e);
  }

  lemma OverStaysOver(o: Options, s: State, e: Event, d: nat)
    requires Enabled(s, e) && IsOver(s, d)
    ensures IsOver(Next(o, s, e), d)
  {
  }

  lemma {:induction false} TraceGrows(o: Options, states: seq<State>, events: seq<Event>, m: nat, n: nat)
    requires IsRun(o, states, events) && m <= n < |states|
    ensures |states[m].trace| <= |states[n].trace|
  {
    if m < n {
      TraceGrows(o, states, events, m, n - 1);
      assert states[n] == Next(o, states[n - 1], events[n - 1]);
    }
  }

  /** The drain has not settled, and this is where the queued input comes from. */
  predicate Pristine(s: State, d: nat, from: Option<nat>) {
    d in s.drains && !s.drains[d].waiting.Settled? && QueuedFrom(s.trace) == from
  }

  lemma StaysPristine(o: Options, s: State, e: Event, d: nat, from: Option<nat>)
    requires SingleFlight(s) && Enabled(s, e) && Pristine(s, d, from) && !e.Call? && e != DrainResumed(d)
    ensures Pristine(Next(o, s, e), d, from)
  {
    QueueStep(o, s, e);
  }

  lemma LeavingPristine(o: Options, s: State, e: Event, d: nat, from: Option<nat>, base: nat)
    requires SingleFlight(s) && Enabled(s, e) && Pristine(s, d, from) && base <= |s.trace|
    requires e.Call? || e == DrainResumed(d)
    ensures OnlyNewer(Next(o, s, e), base) || IsOver(Next(o, s, e), d)
  {
    QueueStep(o, s, e);
  }

  ghost predicate InStage(states: seq<State>, events: seq<Event>, m: nat, n: nat, d: nat)
    requires |states| == |events| + 1 && m < |states| && n < |states|
  {
    Untouched(states, events, m, n, d) || OnlyNewer(states[n], |states[m].trace|) || IsOver(states[n], d)
  }

  lemma LeavingUntouched(o: Options, states: seq<State>, events: seq<Event>, m: nat, n: nat, d: nat)
    requires IsRun(o, states, events) && m < n < |events| && Untouched(states, events, m, n, d)
    requires SingleFlight(states[n]) && |states[m].trace| <= |states[n].trace|
    ensures InStage(states, events, m, n + 1, d)
  {
    var from := QueuedFrom(states[m].trace);
    if events[n].Call? || events[n] == DrainResumed(d) {
      LeavingPristine(o, states[n], events[n], d, from, |states[m].trace|);
    } else {
      StaysPristine(o, states[n], events[n], d, from);
    }
  }

  lemma StageStep(o: Options, states: seq<State>, events: seq<Event>, m: nat, n: nat, d: nat)
    requires IsRun(o, states, events) && m < n < |events| && InStage(states, events, m, n, d)
    requires SingleFlight(states[n]) && |states[m].trace| <= |states[n].trace|
    ensures InStage(states, events, m, n + 1, d)
  {
    if Untouched(states, events, m, n, d) {
      LeavingUntouched(o, states, events, m, n, d);
    } else if OnlyNewer(states[n], |states[m].trace|) {
      NewerStaysNewer(o, states[n], events[n], |states[m].trace|);
    } else {
      OverStaysOver(o, states[n], events[n], d);
    }
  }

  lemma {:induction false} DrainStages(o: Options, states: seq<State>, events: seq<Event>, m: nat, n: nat)
    requires IsRun(o, states, events) && StartsDrain(states, events, m) && m < n < |states|
    ensures InStage(states, events, m, n, states[m].started)
  {
    if n == m + 1 {
      UntouchedAtFirst(o, states, events, m);
    } else {
      DrainStages(o, states, events, m, n - 1);
      SignalsAreConserved(o, states, events, n - 1);
      TraceGrows(o, states, events, m, n - 1);
      StageStep(o, states, events, m, n - 1, states[m].started);
    }
  }

  /**
   * A call that starts a drain has its drain send an input older than its own exactly if signals were
   * queued when it came (which `getState` shows), its first sendWithRetry returns, and no call comes
   * before the drain resumes; that resumption is then where the older input begins.
   */
  lemma OlderInputBeginsIff(o: Options, states: seq<State>, events: seq<Event>, m: nat, r: nat)
    requires IsRun(o, states, events) && StartsDrain(states, events, m)
    ensures BeginsOlderAt(states, events, m, r, states[m].started) <==>
            states[m].queuedSignals > 0 && ReturnsUndisturbed(states, events, m, r, states[m].started)
    ensures BeginsOlderAt(states, events, m, r, states[m].started) ==>
              var older := states[r].trace[QueuedFrom(states[r].trace).value].input;
              states[r + 1].trace == states[r].trace + [Took] + [Began(older)] + [Sent(older)]
  {
    var d := states[m].started;
    QueueIsQueuedFrom(o, states, events, m);
    if m < r < |events| {
      DrainStages(o, states, events, m, r);
      if ReturnsUndisturbed(states, events, m, r, d) {
        UndisturbedIsUntouched(o, states, events, m, r);
      }
      QueueIsQueuedFrom(o, states, events, r);
      assert states[r + 1] == Next(o, states[r], events[r]);
    }
  }

  lemma UntouchedStep(o: Options, states: seq<State>, events: seq<Event>, m: nat, n: nat, d: nat)
    requires IsRun(o, states, events) && m < n < |events| && Untouched(states, events, m, n, d)
    requires SingleFlight(states[n]) && !events[n].Call? && events[n] != DrainResumed(d)
    ensures Untouched(states, events, m, n + 1, d)
  {
    UndisturbedOneMore(events, m, n, d);
    PristineInRun(o, states, events, n, d, QueuedFrom(states[m].trace));
  }

  lemma PristineInRun(o: Options, states: seq<State>, events: seq<Event>, n: nat, d: nat, from: Option<nat>)
    requires IsRun(o, states, events) && n < |events| && Pristine(states[n], d, from)
    requires SingleFlight(states[n]) && !events[n].Call? && events[n] != DrainResumed(d)
    ensures Pristine(states[n + 1], d, from)
  {
    StaysPristine(o, states[n], events[n], d, from);
  }

  lemma UntouchedAtFirst(o: Options, states: seq<State>, events: seq<Event>, m: nat)
    requires IsRun(o, states, events) && StartsDrain(states, events, m)
    ensures Untouched(states, events, m, m + 1, states[m].started)
  {
    assert states[m + 1] == Next(o, states[m], events[m]);
    QueueStep(o, states[m], events[m]);
  }

  /** With no call and no resumption of the drain in between, the queue has not changed. */
  lemma {:induction false} UndisturbedIsUntouched(
      o: Options, states: seq<State>, events: seq<Event>, m: nat, n: nat)
    requires IsRun(o, states, events) && StartsDrain(states, events, m) && m < n < |states|
    requires Undisturbed(events, m, n, states[m].started)
    ensures Untouched(states, events, m, n, states[m].started)
  {
    if n == m + 1 {
      UntouchedAtFirst(o, states, events, m);
    } else {
      UndisturbedIsUntouched(o, states, events, m, n - 1);
      SignalsAreConserved(o, states, events, n - 1);
      UntouchedStep(o, states, events, m, n - 1, states[m].started);
    }
  }

  // ---------------------------------------------------------------------------------------------
  // What a coalesced caller's answer means
  // ---------------------------------------------------------------------------------------------

  /** Event x is a call that joins drain d: it gets that drain's answer. */
  predicate Joins(states: seq<State>, events: seq<Event>, x: nat, d: nat)
    requires |states| == |events| + 1
  {
    x < |events| && events[x].Call? && states[x].inFlight == Some(d)
  }

  /** At event r drain d delivers its reply. */
  predicate DeliversAt(states: seq<State>, events: seq<Event>, r: nat, d: nat)
    requires |states| == |events| + 1
  {
    && r < |events| && events[r] == DrainResumed(d)
    && d in states[r].drains && states[r].drains[d].waiting.SendReturned? && states[r].queuedInput.None?
  }

  /** At event z drain d takes this input from the queue and sends it. */
  predicate SendsAt(states: seq<State>, events: seq<Event>, z: nat, d: nat, input: Input)
    requires |states| == |events| + 1
  {
    && z < |events| && events[z] == DrainResumed(d)
    && states[z + 1].trace == states[z].trace + [Took] + [Began(input)] + [Sent(input)]
  }

  /** Before event n, drain d has sent the input of call x or of a later call that joined it too. */
  ghost predicate SentFor(states: seq<State>, events: seq<Event>, x: nat, d: nat, n: nat)
    requires |states| == |events| + 1
  {
    exists y, z: nat :: x <= y < z < n && Joins(states, events, y, d) && SendsAt(states, events, z, d, events[y].input)
  }

  /** Drain d has not settled, and the queue holds the input of call x or of a later call that joined it. */
  ghost predicate WaitsFor(states: seq<State>, events: seq<Event>, x: nat, d: nat, n: nat)
    requires |states| == |events| + 1 && n < |states|
  {
    && d in states[n].drains && !states[n].drains[d].waiting.Settled?
    && exists y: nat :: x <= y < n && Joins(states, events, y, d) && states[n].queuedInput == Some(events[y].input)
  }

  lemma WaitingStep(o: Options, s: State, e: Event, d: nat)
    requires SingleFlight(s) && Enabled(s, e) && d in s.drains && !s.drains[d].waiting.Settled? && s.queuedInput.Some?
    ensures var t := Next(o, s, e);
            if e.Call? then s.inFlight == Some(d) && t.queuedInput == Some(e.input) && t.drains == s.drains
            else if e == DrainResumed(d) then
              if s.drains[d].waiting.SendThrew? then d in t.drains && t.drains[d].waiting.Settled?
              else t.trace == s.trace + [Took] + [Began(s.queuedInput.value)] + [Sent(s.queuedInput.value)]
            else d in t.drains && !t.drains[d].waiting.Settled? && t.queuedInput == s.queuedInput
  {
    assert s.inFlight == Some(d);
  }

  lemma WaitingGoesOn(o: Options, states: seq<State>, events: seq<Event>, x: nat, d: nat, n: nat)
    requires IsRun(o, states, events) && n < |events| && WaitsFor(states, events, x, d, n)
    requires SingleFlight(states[n]) && d < states[n].started
    ensures || SentFor(states, events, x, d, n + 1) || WaitsFor(states, events, x, d, n + 1)
            || IsOver(states[n + 1], d)
  {
    var s, e := states[n], events[n];
    var y: nat :| x <= y < n && Joins(states, events, y, d) && s.queuedInput == Some(events[y].input);
    WaitingStep(o, s, e, d);
    assert states[n + 1] == Next(o, s, e);
    if e.Call? {
      assert Joins(states, events, n, d);
    } else if e == DrainResumed(d) && !s.drains[d].waiting.SendThrew? {
      assert SendsAt(states, events, n, d, events[y].input);
    }
  }

  lemma JoiningWaits(o: Options, states: seq<State>, events: seq<Event>, x: nat, d: nat)
    requires IsRun(o, states, events) && Joins(states, events, x, d) && SingleFlight(states[x])
    ensures d < states[x + 1].started
    ensures WaitsFor(states, events, x, d, x + 1) || IsOver(states[x + 1], d)
  {
    assert states[x + 1] == Next(o, states[x], events[x]);
  }

  lemma JoinedStageStep(o: Options, states: seq<State>, events: seq<Event>, x: nat, d: nat, n: nat)
    requires IsRun(o, states, events) && n < |events| && SingleFlight(states[n]) && d < states[n].started
    requires SentFor(states, events, x, d, n) || WaitsFor(states, events, x, d, n) || IsOver(states[n], d)
    ensures d < states[n + 1].started
    ensures || SentFor(states, events, x, d, n + 1) || WaitsFor(states, events, x, d, n + 1)
            || IsOver(states[n + 1], d)
  {
    assert states[n + 1] == Next(o, states[n], events[n]);
    if WaitsFor(states, events, x, d, n) {
      WaitingGoesOn(o, states, events, x, d, n);
    } else if IsOver(states[n], d) {
      OverStaysOver(o, states[n], events[n], d);
    }
  }

  lemma {:induction false} JoinedStages(o: Options, states: seq<State>, events: seq<Event>, x: nat, d: nat, n: nat)
    requires IsRun(o, states, events) && Joins(states, events, x, d) && x < n < |states|
    ensures d < states[n].started
    ensures SentFor(states, events, x, d, n) || WaitsFor(states, events, x, d, n) || IsOver(states[n], d)
  {
    SignalsAreConserved(o, states, events, n - 1);
    if n == x + 1 {
      JoiningWaits(o, states, events, x, d);
    } else {
      JoinedStages(o, states, events, x, d, n - 1);
      JoinedStageStep(o, states, events, x, d, n - 1);
    }
  }

  lemma {:induction false} OverNeverResumes(o: Options, states: seq<State>, events: seq<Event>, d: nat, m: nat, n: nat)
    requires IsRun(o, states, events) && m <= n < |events| && IsOver(states[m], d)
    ensures IsOver(states[n], d) && events[n] != DrainResumed(d)
  {
    if m < n {
      OverNeverResumes(o, states, events, d, m, n - 1);
      assert states[n] == Next(o, states[n - 1], events[n - 1]);
      OverStaysOver(o, states[n - 1], events[n - 1], d);
    }
    assert Enabled(states[n], events[n]);
  }

  lemma DeliveryEnds(o: Options, states: seq<State>, events: seq<Event>, r: nat, d: nat)
    requires IsRun(o, states, events) && DeliversAt(states, events, r, d)
    ensures IsOver(states[r + 1], d)
  {
    SignalsAreConserved(o, states, events, r);
    assert states[r + 1] == Next(o, states[r], events[r]);
  }

  /**
   * A caller that joins a drain which delivers has had its own input sent by it, or a later one that joined
   * too, iff it joined before the delivery. One that joins in the gap before the `finally` gets the reply
   * all the same, and the drain sends nothing more.
   */
  lemma AnsweredIsSentIff(o: Options, states: seq<State>, events: seq<Event>, x: nat, d: nat, r: nat)
    requires IsRun(o, states, events) && Joins(states, events, x, d) && DeliversAt(states, events, r, d)
    ensures SentFor(states, events, x, d, r) <==> x < r
    ensures SentFor(states, events, x, d, |events|) <==> x < r
    ensures x > r ==> d in states[x].drains && states[x].drains[d].waiting.Settled?
  {
    DeliveryEnds(o, states, events, r, d);
    SignalsAreConserved(o, states, events, x);
    if x < r {
      JoinedStages(o, states, events, x, d, r);
      var y, z: nat :|
        x <= y < z < r && Joins(states, events, y, d) && SendsAt(states, events, z, d, events[y].input);
    } else {
      forall z: nat | x < z < |events| ensures events[z] != DrainResumed(d) {
        OverNeverResumes(o, states, events, d, r + 1, z);
      }
      OverNeverResumes(o, states, events, d, r + 1, x);
    }
  }

  // ---------------------------------------------------------------------------------------------
  // Both ways of leaving an input occur, whatever the options
  // ---------------------------------------------------------------------------------------------

  /** The first drain has failed `attempt` times on its input, with one call coalesced. */
  predicate Retrying(s: State, first: Input, older: Input, attempt: int) {
    && s.inFlight == Some(0) && s.started == 1 && s.drains == map[0 := Drain(Port, first, 0, attempt)]
    && s.queuedInput == Some(older) && s.queuedSignals == 1
    && QueuedFrom(s.trace).Some?
  }

  lemma RetryOnce(o: Options, s: State, first: Input, older: Input, attempt: int) returns (t: State)
    requires Reachable(o, s) && Retrying(s, first, older, attempt) && attempt + 1 < o.maxAttempts
    ensures Reachable(o, t) && Retrying(t, first, older, attempt + 1)
  {
    var u := Next(o, s, PortThrew(0));
    QueueStep(o, s, PortThrew(0));
    ReachNext(o, s, PortThrew(0));
    t := Next(o, u, SleepEnded(0));
    QueueStep(o, u, SleepEnded(0));
    ReachNext(o, u, SleepEnded(0));
  }

  lemma {:induction false} RetryUntil(o: Options, first: Input, older: Input, attempt: nat) returns (s: State)
    requires attempt < AttemptLimit(o)
    ensures Reachable(o, s) && Retrying(s, first, older, attempt)
  {
    if attempt == 0 {
      var u := Next(o, Start(), Call(first));
      ReachStart(o);
      ReachNext(o, Start(), Call(first));
      s := Next(o, u, Call(older));
      QueueStep(o, u, Call(older));
      ReachNext(o, u, Call(older));
    } else {
      var before := RetryUntil(o, first, older, attempt - 1);
      s := RetryOnce(o, before, first, older, attempt - 1);
    }
  }

  /** Nothing is in flight and this input is queued. */
  predicate Left(s: State, older: Input) {
    s.inFlight.None? && s.drains == map[] && s.started == 1 && s.queuedInput == Some(older) && s.queuedSignals == 1
  }

  /** A drain that uses up its attempts leaves the input queued meanwhile. */
  lemma FailedDrainLeavesQueue(o: Options, first: Input, older: Input) returns (s: State)
    ensures Reachable(o, s) && Left(s, older) && CoalescedBeforeThrow(s.trace)
  {
    var limit := AttemptLimit(o);
    var t := RetryUntil(o, first, older, limit - 1);
    var u := Next(o, t, PortThrew(0));
    QueueStep(o, t, PortThrew(0));
    ReachNext(o, t, PortThrew(0));
    var v := Next(o, u, DrainResumed(0));
    QueuedFromOneMore(u.trace, Dropped(0));
    ReachNext(o, u, DrainResumed(0));
    s := Next(o, v, CallFinished(0));
    ReachNext(o, v, CallFinished(0));
  }

  /** So does a drain that succeeds, when the call comes before the `finally`. */
  lemma GapLeavesQueue(o: Options, first: Input, late: Input, reply: Reply) returns (s: State)
    ensures Reachable(o, s) && Left(s, late) && CoalescedSinceSettled(s.trace)
  {
    var t := Next(o, Start(), Call(first));
    ReachStart(o);
    ReachNext(o, Start(), Call(first));
    var u := Next(o, t, PortReplied(0, reply));
    ReachNext(o, t, PortReplied(0, reply));
    var v := Next(o, u, DrainResumed(0));
    ReachNext(o, u, DrainResumed(0));
    var w := Next(o, v, Call(late));
    ReachNext(o, v, Call(late));
    QueuedFromOneMore(v.trace, Coalesced(late));
    s := Next(o, w, CallFinished(0));
    ReachNext(o, w, CallFinished(0));
  }

  /** An input left by either goes out after the next call's own, newer input. */
  lemma LeftoverInputGoesOutLate(o: Options, s: State, older: Input, newer: Input, reply: Reply) returns (t: State)
    requires Reachable(o, s) && Left(s, older)
    ensures Reachable(o, t)
    ensures t.trace == s.trace + [Began(newer)] + [Sent(newer)] + [PortOk] + [Took] + [Began(older)] + [Sent(older)]
  {
    var u := Next(o, s, Call(newer));
    ReachNext(o, s, Call(newer));
    var v := Next(o, u, PortReplied(1, reply));
    ReachNext(o, u, PortReplied(1, reply));
    t := Next(o, v, DrainResumed(1));
    ReachNext(o, v, DrainResumed(1));
  }
}
