/**
 * What the screening of a publish is worth when publishes run concurrently.
 *
 * A call screens its version once, when it looks its pack up; it may put much later. In isolated runs the
 * registry's versions stay unique, and its packs their owners', exactly as far as what a lookup saw is
 * still so at the put.
 */
module PublishScreening {
  import opened PackRegistry
  import opened PublishProtocol

  /** The call has passed its lookup and may still put. */
  predicate Admitted(phase: Phase) {
    phase.Uploading? || phase.Loading? || phase.Checking? || phase.Putting?
  }

  /** What the lookup saw let the call through. */
  predicate Passed(packs: seq<Entry>, r: Request) {
    Screen(packs, r.packId, r.version.version, r.version.publishedBy).None?
  }

  /** The call's lookup happened `lookedUpAt` puts into the log, and let it through. */
  predicate Cleared(s0: State, s: State, call: Call) {
    Admitted(call.phase) ==>
      call.lookedUpAt <= |s.log| && Passed(Replay(Parse(s0.blob).packs, s.log[..call.lookedUpAt]), call.request)
  }

  predicate AllCleared(s0: State, s: State) {
    forall c :: c in s.calls ==> Cleared(s0, s, s.calls[c])
  }

  lemma StaysCleared(s0: State, s: State, t: State, call: Call)
    requires Cleared(s0, s, call) && s.log <= t.log
    ensures Cleared(s0, t, call)
  {
    if Admitted(call.phase) {
      assert t.log[..call.lookedUpAt] == s.log[..call.lookedUpAt];
    }
  }

  lemma ActingCallCleared(s0: State, s: State, step: Step)
    requires Serial(s0, s) && AllCleared(s0, s) && Enabled(s, step)
    ensures Cleared(s0, Next(s, step), Next(s, step).calls[step.call])
  {
    var t := Next(s, step);
    if step.LookUp? {
      assert s.log[..|s.log|] == s.log;
    } else if !step.Begin? {
      assert Cleared(s0, s, s.calls[step.call]);
      StaysCleared(s0, s, t, s.calls[step.call]);
    }
  }

  lemma StepKeepsCleared(s0: State, s: State, step: Step)
    requires Serial(s0, s) && AllCleared(s0, s) && Enabled(s, step)
    ensures AllCleared(s0, Next(s, step))
  {
    var t := Next(s, step);
    ActingCallCleared(s0, s, step);
    forall c | c in t.calls ensures Cleared(s0, t, t.calls[c]) {
      if c != step.call {
        StaysCleared(s0, s, t, s.calls[c]);
      }
    }
  }

  /** In isolated runs every call that may put was let through by the index of its lookup. */
  lemma {:induction false} RunsAreCleared(states: seq<State>, steps: seq<Step>, n: nat)
    requires IsRun(states, steps) && n < |states| && AllIsolated(states, steps)
    ensures AllCleared(states[0], states[n])
  {
    if n > 0 {
      RunsAreCleared(states, steps, n - 1);
      IsolatedRunIsSerial(states, steps, n - 1);
      StepKeepsCleared(states[0], states[n - 1], steps[n - 1]);
    }
  }

  /** Everything known of a state of an isolated run. */
  predicate Orderly(s0: State, s: State) {
    Serial(s0, s) && Planned(s0, s) && AllCleared(s0, s) && Accounted(s)
  }

  lemma RunsAreOrderly(states: seq<State>, steps: seq<Step>, n: nat)
    requires IsRun(states, steps) && n < |states| && AllIsolated(states, steps)
    ensures Orderly(states[0], states[n])
  {
    IsolatedRunIsSerial(states, steps, n);
    RunsAreCleared(states, steps, n);
    RunsAreAccounted(states, steps, n);
  }

  // ---------------------------------------------------------------------------------------------
  // Version strings
  // ---------------------------------------------------------------------------------------------

  /** Another call has put the same version string to the same pack since this put's call looked it up. */
  predicate OverlapsSameVersion(s: State, step: Step)
    requires Enabled(s, step)
  {
    step.Put? &&
    var call := s.calls[step.call];
    exists k :: call.lookedUpAt <= k < |s.log| && k < |s.writers| && s.writers[k] != step.call
      && s.log[k].packId == call.request.packId && s.log[k].version.version == call.request.version.version
  }

  lemma NotItsOwnWriter(s: State, c: CallId, k: nat)
    requires Accounted(s) && c in s.calls && s.calls[c].phase.Putting? && k < |s.log|
    ensures k < |s.writers| && s.writers[k] != c
  {
    assert CallFits(s, c, s.calls[c]);
    assert c !in multiset(s.writers);
    assert s.writers[k] in s.writers;
  }

  lemma OverlapIsComingIn(s: State, step: Step)
    requires Accounted(s) && Enabled(s, step) && step.Put?
    ensures var call := s.calls[step.call];
            OverlapsSameVersion(s, step) <==>
            ComesIn(s.log, call.lookedUpAt, call.request.packId, call.request.version.version)
  {
    var call := s.calls[step.call];
    var r := call.request;
    if ComesIn(s.log, call.lookedUpAt, r.packId, r.version.version) {
      var k :| call.lookedUpAt <= k < |s.log|
        && s.log[k].packId == r.packId && s.log[k].version.version == r.version.version;
      NotItsOwnWriter(s, step.call, k);
    }
  }

  lemma PassedIsNotTaken(packs: seq<Entry>, r: Request)
    requires Passed(packs, r)
    ensures !Taken(packs, r.packId, r.version.version)
  {
  }

  /** A put finds its version string listed exactly when another call's put brought it in since the lookup. */
  lemma TakenIffOverlapped(s0: State, s: State, step: Step)
    requires Orderly(s0, s) && Enabled(s, step) && step.Put?
    ensures var r := s.calls[step.call].request;
            Taken(Parse(s.blob).packs, r.packId, r.version.version) <==> OverlapsSameVersion(s, step)
  {
    var call, packs := s.calls[step.call], Parse(s0.blob).packs;
    assert Cleared(s0, s, call);
    PassedIsNotTaken(Replay(packs, s.log[..call.lookedUpAt]), call.request);
    TakenSince(packs, s.log, call.lookedUpAt, call.request.packId, call.request.version.version);
    OverlapIsComingIn(s, step);
  }

  lemma IsolatedPutApplies(s0: State, s: State, step: Step)
    requires Orderly(s0, s) && Enabled(s, step) && Isolated(s, step) && step.Put?
    ensures var u := s.calls[step.call].phase.upsert;
            && Parse(Next(s, step).blob).packs == Apply(Parse(s.blob).packs, u)
            && u == UpsertOf(s.calls[step.call].request, u.now)
  {
    var p := s.calls[step.call].phase;
    assert PhasePlanned(s0, s, p) && CallFits(s, step.call, s.calls[step.call]);
    assert s.log[..|s.log|] == s.log;
  }

  lemma StepKeepsUniqueIff(s0: State, s: State, step: Step)
    requires Orderly(s0, s) && Enabled(s, step) && Isolated(s, step)
    ensures NoRepeats(Parse(Next(s, step).blob).packs) <==>
            NoRepeats(Parse(s.blob).packs) && !OverlapsSameVersion(s, step)
  {
    if step.Put? {
      TakenIffOverlapped(s0, s, step);
      IsolatedPutApplies(s0, s, step);
      ApplyRepeats(Parse(s.blob).packs, s.calls[step.call].phase.upsert);
    }
  }

  /**
   * In isolated runs no version string repeats exactly as long as no call's put was overtaken, since its
   * own lookup, by another call's put of the same version of the same pack.
   */
  lemma {:induction false} UniqueIffNoOverlap(states: seq<State>, steps: seq<Step>, n: nat)
    requires IsRun(states, steps) && n < |states| && AllIsolated(states, steps)
    requires NoRepeats(Parse(states[0].blob).packs)
    ensures NoRepeats(Parse(states[n].blob).packs) <==>
            forall i :: 0 <= i < n ==> !OverlapsSameVersion(states[i], steps[i])
  {
    if n > 0 {
      UniqueIffNoOverlap(states, steps, n - 1);
      RunStepKeepsUniqueIff(states, steps, n - 1);
    }
  }

  lemma RunStepKeepsUniqueIff(states: seq<State>, steps: seq<Step>, i: nat)
    requires IsRun(states, steps) && i < |steps| && AllIsolated(states, steps)
    ensures NoRepeats(Parse(states[i + 1].blob).packs) <==>
            NoRepeats(Parse(states[i].blob).packs) && !OverlapsSameVersion(states[i], steps[i])
  {
    RunsAreOrderly(states, steps, i);
    StepKeepsUniqueIff(states[0], states[i], steps[i]);
  }

  /** Two isolated publishes of one version both succeed when both looked it up before either put. */
  lemma RepeatIsReachable(r0: Request, r1: Request)
    requires r0.packId == r1.packId && r0.version.version == r1.version.version
    ensures exists s :: Reachable(s, true) && BothPublished(s, r0, r1) && !NoRepeats(Parse(s.blob).packs)
  {
    var s := SecondPublishes(r0, r1);
    var u0, u1 := UpsertOf(r0, ""), UpsertOf(r1, "");
    TakenAfterApply([], u0, u0.packId, u0.version.version);
    ApplyRepeats(Apply([], u0), u1);
  }

  // ---------------------------------------------------------------------------------------------
  // Ownership
  // ---------------------------------------------------------------------------------------------

  /** The put lands on a pack that a different publisher has created since this call looked it up. */
  predicate Trespasses(s0: State, s: State, step: Step)
    requires Enabled(s, step)
  {
    step.Put? &&
    var call := s.calls[step.call];
    exists k :: call.lookedUpAt <= k < |s.log| && s.log[k].packId == call.request.packId
      && Creates(Parse(s0.blob).packs, s.log, k) && s.log[k].owner != call.request.version.publishedBy
  }

  /** A put lands on someone else's pack exactly when they created it between the lookup and the put. */
  lemma ForeignIffTrespass(s0: State, s: State, step: Step)
    requires Orderly(s0, s) && Enabled(s, step) && step.Put?
    ensures var r := s.calls[step.call].request;
            var pack := Find(Parse(s.blob).packs, r.packId);
            (pack.Some? && pack.value.owner != r.version.publishedBy) <==> Trespasses(s0, s, step)
  {
    var call, packs := s.calls[step.call], Parse(s0.blob).packs;
    var r, at := call.request, call.lookedUpAt;
    assert Cleared(s0, s, call);
    var pack := Find(Parse(s.blob).packs, r.packId);
    if Find(Replay(packs, s.log[..at]), r.packId).Some? {
      ReplayOnlyExtends(packs, s.log, at, r.packId);
    } else if pack.Some? {
      var k := FounderOwns(packs, s.log, at, r.packId);
    }
    if Trespasses(s0, s, step) {
      var k :| at <= k < |s.log| && s.log[k].packId == r.packId && Creates(packs, s.log, k)
        && s.log[k].owner != r.version.publishedBy;
      CreatorOwns(packs, s.log, k);
    }
  }

  lemma StepKeepsOwnersIff(s0: State, s: State, step: Step)
    requires Orderly(s0, s) && Enabled(s, step) && Isolated(s, step)
    ensures OwnersPublish(Parse(Next(s, step).blob).packs) <==>
            OwnersPublish(Parse(s.blob).packs) && !Trespasses(s0, s, step)
  {
    if step.Put? {
      ForeignIffTrespass(s0, s, step);
      IsolatedPutApplies(s0, s, step);
      ApplyOwners(Parse(s.blob).packs, s.calls[step.call].phase.upsert);
    }
  }

  /**
   * In isolated runs every listed version is by its pack's owner exactly as long as no put lands on a
   * pack that a different publisher created between this call's lookup and the put.
   */
  lemma {:induction false} OwnersPublishIffNoTrespass(states: seq<State>, steps: seq<Step>, n: nat)
    requires IsRun(states, steps) && n < |states| && AllIsolated(states, steps)
    requires OwnersPublish(Parse(states[0].blob).packs)
    ensures OwnersPublish(Parse(states[n].blob).packs) <==>
            forall i :: 0 <= i < n ==> !Trespasses(states[0], states[i], steps[i])
  {
    if n > 0 {
      OwnersPublishIffNoTrespass(states, steps, n - 1);
      RunStepKeepsOwnersIff(states, steps, n - 1);
    }
  }

  lemma RunStepKeepsOwnersIff(states: seq<State>, steps: seq<Step>, i: nat)
    requires IsRun(states, steps) && i < |steps| && AllIsolated(states, steps)
    ensures OwnersPublish(Parse(states[i + 1].blob).packs) <==>
            OwnersPublish(Parse(states[i].blob).packs) && !Trespasses(states[0], states[i], steps[i])
  {
    RunsAreOrderly(states, steps, i);
    StepKeepsOwnersIff(states[0], states[i], steps[i]);
  }

  /** Two publishers who both look up a fresh pack id can both publish to it. */
  lemma TrespassIsReachable(r0: Request, r1: Request)
    requires r0.packId == r1.packId && r0.version.publishedBy != r1.version.publishedBy
    ensures exists s :: Reachable(s, true) && BothPublished(s, r0, r1) && !OwnersPublish(Parse(s.blob).packs)
  {
    var s := SecondPublishes(r0, r1);
    var u0, u1 := UpsertOf(r0, ""), UpsertOf(r1, "");
    FindAfterApply([], u0, u0.packId);
    ApplyOwners(Apply([], u0), u1);
  }
}
