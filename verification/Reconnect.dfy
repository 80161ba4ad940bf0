/**
 * The live-event connection of a task page: connect, reconnect with backoff, give up, clean up.
 *
 * An effect is one mounting of the hook; its cleanup runs before the next effect starts. The attempt
 * counter and the two refs outlive effects. A closed source delivers no more events and a cleared timer
 * does not fire.
 */
module Reconnect {
  import opened Arithmetic
  import opened Text

  const BACKOFF_BASE_MS := 1000.0
  const BACKOFF_MAX_MS := 30000.0
  const BACKOFF_JITTER_FACTOR := 0.5
  const MAX_RECONNECT_ATTEMPTS := 10

  datatype Connection = Connecting | Connected | Disconnected | Error

  datatype Signal = Open | Failure

  datatype Timer = Timer(effect: nat, delayMs: real)

  datatype State = State(
    active: Option<nat>,    // the effect now mounted: every other one has isCleanedUp
    effects: nat,
    live: map<nat, nat>,    // sources not closed, with the effect that opened each
    source: Option<nat>,    // eventSourceRef
    sources: nat,
    timers: map<nat, Timer>,  // timers not fired or cleared, with the effect that set each
    timer: Option<nat>,     // reconnectTimerRef
    timersSet: nat,
    attempt: nat,           // reconnectAttemptRef
    connection: Connection,
    signals: seq<Signal>)   // history: what the sources of mounted effects have reported

  datatype Event =
    | Mounted
    | Opened(source: nat)
    | Failed(source: nat, random: real)  // `random` is what Math.random returns in the handler
    | TimerFired(timer: nat)
    | CleanedUp

  function Exponential(attempt: nat): real {
    var grown := BACKOFF_BASE_MS * Pow2(attempt) as real;
    if grown < BACKOFF_MAX_MS then grown else BACKOFF_MAX_MS
  }

  function ComputeBackoffMs(attempt: nat, random: real): real {
    Exponential(attempt) + Exponential(attempt) * BACKOFF_JITTER_FACTOR * random
  }

  predicate Enabled(s: State, e: Event) {
    match e
    case Mounted => s.active.None?
    case Opened(src) => src in s.live
    case Failed(src, random) => src in s.live && 0.0 <= random < 1.0
    case TimerFired(t) => t in s.timers
    case CleanedUp => s.active.Some?
  }

  function AfterConnect(s: State, effect: nat): State {
    if s.active != Some(effect) then s
    else s.(live := s.live[s.sources := effect], source := Some(s.sources), sources := s.sources + 1)
  }

  function Next(s: State, e: Event): State
    requires Enabled(s, e)
  {
    match e
    case Mounted => AfterConnect(s.(active := Some(s.effects), effects := s.effects + 1), s.effects)
    case Opened(src) => s.(attempt := 0, connection := Connected, signals := s.signals + [Open])
    case Failed(src, random) =>
      var closed := s.(live := s.live - {src}, source := None);
      if s.active != Some(s.live[src]) then closed
      else if s.attempt >= MAX_RECONNECT_ATTEMPTS then
        closed.(connection := Error, signals := s.signals + [Failure])
      else
        closed.(connection := Disconnected, attempt := s.attempt + 1, signals := s.signals + [Failure],
                timers := s.timers[s.timersSet := Timer(s.live[src], ComputeBackoffMs(s.attempt, random))],
                timer := Some(s.timersSet), timersSet := s.timersSet + 1)
    case TimerFired(t) => AfterConnect(s.(timers := s.timers - {t}), s.timers[t].effect)
    case CleanedUp =>
      s.(active := None,
         timers := if s.timer.Some? then s.timers - {s.timer.value} else s.timers, timer := None,
         live := if s.source.Some? then s.live - {s.source.value} else s.live, source := None)
  }

  function Start(): State {
    State(None, 0, map[], None, 0, map[], None, 0, 0, Connecting, [])
  }

  class EventConnection {
    var active: Option<nat>
    var effects: nat
    var live: map<nat, nat>
    var source: Option<nat>
    var sources: nat
    var timers: map<nat, Timer>
    var timer: Option<nat>
    var timersSet: nat
    var attempt: nat
    var connection: Connection
    ghost var signals: seq<Signal>

    ghost function View(): State
      reads this
    {
      State(active, effects, live, source, sources, timers, timer, timersSet, attempt, connection, signals)
    }

    constructor ()
      ensures View() == Start()
    {
      active, effects, live, source, sources := None, 0, map[], None, 0;
      timers, timer, timersSet, attempt, connection, signals := map[], None, 0, 0, Connecting, [];
    }

    method Connect(effect: nat)
      modifies this
      ensures View() == AfterConnect(old(View()), effect)
    {
      if active != Some(effect) {
        return;
      }
      live := live[sources := effect];
      source := Some(sources);
      sources := sources + 1;
    }

    method Mount()
      requires Enabled(View(), Mounted)
      modifies this
      ensures View() == Next(old(View()), Mounted)
    {
      active := Some(effects);
      effects := effects + 1;
      Connect(effects - 1);
    }

    method OnOpen(src: nat)
      requires Enabled(View(), Opened(src))
      modifies this
      ensures View() == Next(old(View()), Opened(src))
    {
      attempt := 0;
      connection := Connected;
      signals := signals + [Open];
    }

    method OnError(src: nat, random: real)
      requires Enabled(View(), Failed(src, random))
      modifies this
      ensures View() == Next(old(View()), Failed(src, random))
    {
      var effect := live[src];
      live := live - {src};
      source := None;
      if active != Some(effect) {
        return;
      }
      signals := signals + [Failure];
      if attempt >= MAX_RECONNECT_ATTEMPTS {
        connection := Error;
        return;
      }
      connection := Disconnected;
      var delayMs := ComputeBackoffMs(attempt, random);
      attempt := attempt + 1;
      SetTimer(Timer(effect, delayMs));
    }

    method SetTimer(t: Timer)
      modifies `timers, `timer, `timersSet
      ensures timers == old(timers)[old(timersSet) := t]
      ensures timer == Some(old(timersSet)) && timersSet == old(timersSet) + 1
    {
      timers := timers[timersSet := t];
      timer := Some(timersSet);
      timersSet := timersSet + 1;
    }

    method OnTimer(t: nat)
      requires Enabled(View(), TimerFired(t))
      modifies this
      ensures View() == Next(old(View()), TimerFired(t))
    {
      var effect := timers[t].effect;
      timers := timers - {t};
      Connect(effect);
    }

    method CleanUp()
      requires Enabled(View(), CleanedUp)
      modifies this
      ensures View() == Next(old(View()), CleanedUp)
    {
      active := None;
      if timer.Some? {
        timers := timers - {timer.value};
        timer := None;
      }
      if source.Some? {
        live := live - {source.value};
        source := None;
      }
    }
  }

  // ---------------------------------------------------------------------------------------------
  // What holds over every sequence of events
  // ---------------------------------------------------------------------------------------------

  function FailuresSinceOpen(signals: seq<Signal>): nat {
    if signals == [] || signals[|signals| - 1].Open? then 0 else FailuresSinceOpen(signals[..|signals| - 1]) + 1
  }

  function Shown(signals: seq<Signal>): Connection {
    if signals == [] then Connecting
    else if signals[|signals| - 1].Open? then Connected
    else if FailuresSinceOpen(signals) > 10 then Error
    else Disconnected
  }

  /** A live source or a pending timer of the mounted effect, never both; neither only after giving up. */
  predicate Safe(s: State) {
    && (forall src :: src in s.live ==> s.active == Some(s.live[src]) && s.source == Some(src) && src < s.sources)
    && (forall t :: t in s.timers ==> s.active == Some(s.timers[t].effect) && s.timer == Some(t) && t < s.timersSet)
    && (s.live == map[] || s.timers == map[])
    && (s.active.Some? ==> s.active.value < s.effects)
    && (s.active.Some? && s.live == map[] && s.timers == map[] ==> s.connection == Error)
  }

  predicate CounterFits(s: State) {
    && s.attempt == Min(10, FailuresSinceOpen(s.signals))
    && s.connection == Shown(s.signals)
  }

  lemma StepKeepsSafe(s: State, e: Event)
    requires Safe(s) && Enabled(s, e)
    ensures Safe(Next(s, e))
  {
    var t := Next(s, e);
    match e {
      case Mounted => assert s.sources in t.live;
      case Opened(src) => assert src in t.live;
      case Failed(src, _) =>
        assert t.live == map[];
        assert s.timers == map[] by { assert src in s.live; }
        if s.attempt < MAX_RECONNECT_ATTEMPTS {
          assert s.timersSet in t.timers;
        }
      case TimerFired(timer) =>
        assert s.live == map[] by { assert timer in s.timers; }
        assert t.timers == map[];
        assert s.sources in t.live;
      case CleanedUp =>
        assert t.live == map[] && t.timers == map[];
    }
  }

  lemma OneMoreSignal(signals: seq<Signal>, x: Signal)
    ensures FailuresSinceOpen(signals + [x]) == if x.Open? then 0 else FailuresSinceOpen(signals) + 1
    ensures Shown(signals + [x]) ==
            if x.Open? then Connected
            else if FailuresSinceOpen(signals) + 1 > 10 then Error
            else Disconnected
  {
    assert (signals + [x])[..|signals|] == signals;
  }

  lemma StepKeepsCounter(s: State, e: Event)
    requires Safe(s) && CounterFits(s) && Enabled(s, e)
    ensures CounterFits(Next(s, e))
  {
    if e.Opened? {
      OneMoreSignal(s.signals, Open);
    } else if e.Failed? {
      OneMoreSignal(s.signals, Failure);
    }
  }

  ghost predicate IsRun(states: seq<State>, events: seq<Event>) {
    && |states| == |events| + 1
    && states[0] == Start()
    && forall i :: 0 <= i < |events| ==> Enabled(states[i], events[i]) && states[i + 1] == Next(states[i], events[i])
  }

  lemma {:induction false} RunsAreSafe(states: seq<State>, events: seq<Event>, n: nat)
    requires IsRun(states, events) && n < |states|
    ensures Safe(states[n]) && CounterFits(states[n])
  {
    if n > 0 {
      RunsAreSafe(states, events, n - 1);
      StepKeepsSafe(states[n - 1], events[n - 1]);
      StepKeepsCounter(states[n - 1], events[n - 1]);
    }
  }

  /** Never two live sources, two pending timers, or one of each; and after cleanup nothing reconnects. */
  lemma AtMostOneConnection(states: seq<State>, events: seq<Event>, n: nat)
    requires IsRun(states, events) && n < |states|
    ensures |states[n].live| + |states[n].timers| <= 1
    ensures states[n].active.None? ==> states[n].live == map[] && states[n].timers == map[]
    ensures n < |events| && states[n].active.None? ==> events[n] == Mounted
  {
    RunsAreSafe(states, events, n);
    var s := states[n];
    if s.live != map[] {
      AtMostOneKey(s.live, s.source.GetOr(0));
    } else {
      AtMostOneKey(s.timers, s.timer.GetOr(0));
    }
    if s.active.None? {
      assert s.live == map[] && s.timers == map[];
    }
  }

  lemma AtMostOneKey<T>(m: map<nat, T>, k: nat)
    requires forall x :: x in m ==> x == k
    ensures |m| <= 1
  {
    assert m.Keys == {} || m.Keys == {k};
    assert |m| == |m.Keys|;
  }

  /** ERROR is shown by exactly the failures that meet a full counter, and then nothing is left to fire. */
  lemma ErrorOnlyAtFullCounter(states: seq<State>, events: seq<Event>, n: nat)
    requires IsRun(states, events) && n < |events| && events[n].Failed?
    ensures states[n + 1].connection == Error <==> states[n].attempt == 10
    ensures states[n + 1].connection == Error ==> states[n + 1].live == map[] && states[n + 1].timers == map[]
  {
    RunsAreSafe(states, events, n);
    assert events[n].source in states[n].live;
    assert states[n + 1] == Next(states[n], events[n]);
    if states[n].attempt == MAX_RECONNECT_ATTEMPTS {
      assert states[n + 1].live == map[];
    }
  }

  // ---------------------------------------------------------------------------------------------
  // The counter outlives its effect
  // ---------------------------------------------------------------------------------------------

  /** The failures among events m..n-1. */
  function FailuresAmong(events: seq<Event>, m: nat, n: nat): nat
    requires n <= |events|
  {
    if n <= m then 0 else FailuresAmong(events, m, n - 1) + if events[n - 1].Failed? then 1 else 0
  }

  /** Since the effect mounted by event m, nothing has opened and it has not been cleaned up. */
  predicate StillTrying(events: seq<Event>, m: nat, n: nat)
    requires n <= |events|
  {
    m < n && events[m] == Mounted && forall x :: m < x < n ==> !events[x].Opened? && !events[x].CleanedUp?
  }

  predicate GivenUp(s: State) {
    s.active.Some? && s.live == map[] && s.timers == map[]
  }

  lemma TryingStep(s: State, e: Event)
    requires Safe(s) && s.active.Some? && Enabled(s, e) && !e.Opened? && !e.CleanedUp?
    ensures Next(s, e).active.Some?
    ensures GivenUp(s) ==> GivenUp(Next(s, e))
    ensures GivenUp(Next(s, e)) || Next(s, e).attempt == s.attempt + if e.Failed? then 1 else 0
  {
    StepKeepsSafe(s, e);
    if e.Failed? {
      assert e.source in s.live;
      assert Next(s, e).live == map[] && s.timers == map[];
    }
  }

  lemma {:induction false} CounterAddsUp(states: seq<State>, events: seq<Event>, m: nat, n: nat)
    requires IsRun(states, events) && n < |states| && StillTrying(events, m, n)
    ensures states[n].active.Some?
    ensures GivenUp(states[n]) || states[n].attempt == states[m].attempt + FailuresAmong(events, m + 1, n)
    decreases n
  {
    RunsAreSafe(states, events, n - 1);
    assert states[n] == Next(states[n - 1], events[n - 1]);
    if n > m + 1 {
      CounterAddsUp(states, events, m, n - 1);
      TryingStep(states[n - 1], events[n - 1]);
    }
  }

  /**
   * Until it first opens, an effect gets ten retries less those that effects before it have used up since
   * the last open: a failure shows the error state iff that many failures of this effect came before it.
   */
  lemma RetriesAreInherited(states: seq<State>, events: seq<Event>, m: nat, n: nat)
    requires IsRun(states, events) && n < |events| && StillTrying(events, m, n) && events[n].Failed?
    ensures var retries := 10 - states[m].attempt;
            && 0 <= FailuresAmong(events, m + 1, n) <= retries
            && (states[n + 1].connection == Error <==> FailuresAmong(events, m + 1, n) == retries)
  {
    CounterAddsUp(states, events, m, n);
    RunsAreSafe(states, events, n);
    assert events[n].source in states[n].live;
    ErrorOnlyAtFullCounter(states, events, n);
  }

  // ---------------------------------------------------------------------------------------------
  // Delays
  // ---------------------------------------------------------------------------------------------

  lemma ExponentialFits(attempt: nat)
    ensures 1000.0 <= Exponential(attempt) <= 30000.0
    ensures Exponential(attempt) <= Exponential(attempt + 1)
  {
    Pow2Rises(attempt);
  }

  /** The exponential part starts at one second and doubles with each attempt, up to half a minute. */
  lemma ExponentialDoubles(attempt: nat)
    ensures Exponential(0) == 1000.0
    ensures Exponential(attempt + 1) ==
            if Exponential(attempt) * 2.0 < 30000.0 then Exponential(attempt) * 2.0 else 30000.0
  {
    Pow2Rises(attempt);
    assert Pow2(attempt + 1) == 2 * Pow2(attempt);
  }

  /** The jitter adds up to half of it: none for a random number of 0, in proportion for any other. */
  lemma JitterMeans(attempt: nat, random: real)
    ensures ComputeBackoffMs(attempt, random) == Exponential(attempt) * (1.0 + random / 2.0)
  {
    HalfTimes(Exponential(attempt), random);
  }

  lemma HalfTimes(e: real, random: real)
    ensures e + e * 0.5 * random == e * (1.0 + random / 2.0)
  {
  }

  lemma JitterBound(e: real, half: real, random: real)
    requires half == e * 0.5 && 0.0 < e && 0.0 <= random < 1.0
    ensures e <= e + half * random < e * 1.5
  {
    assert half * random == half - half * (1.0 - random);
    assert half * (1.0 - random) > 0.0;
    assert half * random >= 0.0;
  }

  /** Every delay lies between its exponential part and half as much again, so below 45 000 ms. */
  lemma DelaysAreBounded(attempt: nat, random: real)
    requires 0.0 <= random < 1.0
    ensures 1000.0 <= Exponential(attempt) <= ComputeBackoffMs(attempt, random) < 45000.0
    ensures ComputeBackoffMs(attempt, random) < Exponential(attempt) * 1.5
  {
    ExponentialFits(attempt);
    var e := Exponential(attempt);
    JitterBound(e, e * BACKOFF_JITTER_FACTOR, random);
  }

  /** A pending timer waits the backoff of the failure it follows; the counter has moved on by one since. */
  predicate DelayFits(delayMs: real, attempt: nat) {
    && 0 < attempt
    && Exponential(attempt - 1) <= delayMs < Exponential(attempt - 1) * 1.5
    && 1000.0 <= delayMs < 45000.0
  }

  predicate TimersFit(s: State) {
    forall t :: t in s.timers ==> DelayFits(s.timers[t].delayMs, s.attempt)
  }

  lemma StepKeepsTimers(s: State, e: Event)
    requires Safe(s) && TimersFit(s) && Enabled(s, e)
    ensures TimersFit(Next(s, e))
  {
    match e {
      case Opened(src) =>
        assert s.timers == map[] by { assert src in s.live; }
      case Failed(src, random) =>
        assert s.timers == map[] by { assert src in s.live; }
        DelaysAreBounded(s.attempt, random);
      case _ =>
    }
  }

  /** At every moment of every run, a pending timer's delay is the one its place in the failing run calls for. */
  lemma {:induction false} PendingDelaysFit(states: seq<State>, events: seq<Event>, n: nat)
    requires IsRun(states, events) && n < |states|
    ensures TimersFit(states[n])
  {
    if n > 0 {
      PendingDelaysFit(states, events, n - 1);
      RunsAreSafe(states, events, n - 1);
      StepKeepsTimers(states[n - 1], events[n - 1]);
    }
  }
}
