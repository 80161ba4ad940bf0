/**
 * Any number of publish calls racing on one registry blob.
 *
 * Each step is the code between two awaits: the lookup, the upload, and then, up to three times, load
 * the index, re-read it to compare `indexVersion`, and put the new index over whatever is there. The
 * re-read and the put are separate requests, so another call's put can fall between them; `Isolated`
 * names the steps for which that did not happen, and nothing in the steps themselves prevents it.
 */
module PublishProtocol {
  import opened Text
  import opened PackRegistry

  type CallId = nat

  /** The handler builds `version` with the publisher's name and the integrity its upload returned. */
  datatype Request = Request(packId: string, description: string, version: PackVersion)

  datatype Outcome =
    | Published
    | Refused(why: Refusal)
    | RetriesExhausted
    | Thrown(landed: bool)  // the caller sees only an error; `landed` records whether its put took effect

  // `loadedAt` and `checkedAt` only record how many puts had happened by then; no step tests them.
  datatype Phase =
    | LookingUp
    | Uploading
    | Loading(attempt: nat)
    | Checking(attempt: nat, expected: nat, next: seq<Entry>, upsert: Upsert, loadedAt: nat)
    // an abandoned put has already been answered with an error, and may still take effect
    | Putting(attempt: nat, expected: nat, next: seq<Entry>, upsert: Upsert, checkedAt: nat, abandoned: bool)
    | Done(outcome: Outcome)

  // The other fields are history too. A conflict is charged to the last put before its check; the rest
  // record how many puts, and then uploads, had happened when the call began, passed its lookup and uploaded.
  datatype Call = Call(
    request: Request, phase: Phase, charged: seq<int>, beganAt: nat, lookedUpAt: nat, uploadedAt: nat)

  /** The path of a stored tarball, by pack id and version string. */
  type FileKey = (string, string)

  datatype FileUpload = FileUpload(key: FileKey, integrity: string, lookedUpAt: nat)

  datatype State = State(
    blob: Option<StoredIndex>,
    files: map<FileKey, string>,  // the stored tarballs, each represented by the integrity of its bytes
    calls: map<CallId, Call>,
    log: seq<Upsert>,             // every put so far, in the order the puts took effect
    writers: seq<CallId>,         // and the call each came from
    uploads: seq<FileUpload>)     // every upload so far

  datatype Step =
    | Begin(call: CallId, request: Request)
    | LookUp(call: CallId)
    | Upload(call: CallId, acknowledged: bool)
    | Load(call: CallId, now: string)
    | Check(call: CallId)
    | Put(call: CallId, acknowledged: bool)
    | Abandon(call: CallId)
    | Throw(call: CallId)

  predicate Enabled(s: State, step: Step) {
    match step
    case Begin(c, _) => c !in s.calls
    case LookUp(c) => c in s.calls && s.calls[c].phase.LookingUp?
    case Upload(c, _) => c in s.calls && s.calls[c].phase.Uploading?
    case Load(c, _) => c in s.calls && s.calls[c].phase.Loading?
    case Check(c) => c in s.calls && s.calls[c].phase.Checking?
    case Put(c, acknowledged) =>
      c in s.calls && s.calls[c].phase.Putting? && (acknowledged ==> !s.calls[c].phase.abandoned)
    case Abandon(c) => c in s.calls && s.calls[c].phase.Putting? && !s.calls[c].phase.abandoned
    case Throw(c) => c in s.calls && !s.calls[c].phase.Done?
  }

  function UpsertOf(r: Request, now: string): Upsert {
    Upsert(r.packId, r.description, r.version, r.version.publishedBy, now)
  }

  function KeyOf(r: Request): FileKey {
    (r.packId, r.version.version)
  }

  function AfterLookUp(packs: seq<Entry>, r: Request): Phase {
    match Screen(packs, r.packId, r.version.version, r.version.publishedBy)
    case Some(why) => Done(Refused(why))
    case None => Uploading
  }

  function AfterConflict(attempt: nat): Phase {
    if attempt + 1 < CONCURRENCY_MAX_RETRIES then Loading(attempt + 1) else Done(RetriesExhausted)
  }

  function UploadOf(call: Call): FileUpload {
    FileUpload(KeyOf(call.request), call.request.version.integrity, call.lookedUpAt)
  }

  function InPhase(s: State, c: CallId, phase: Phase): State
    requires c in s.calls
  {
    s.(calls := s.calls[c := s.calls[c].(phase := phase)])
  }

  function Next(s: State, step: Step): State
    requires Enabled(s, step)
  {
    match step
    case Begin(c, request) => s.(calls := s.calls[c := Call(request, LookingUp, [], |s.log|, 0, 0)])
    case LookUp(c) =>
      var call := s.calls[c];
      s.(calls := s.calls[c := call.(phase := AfterLookUp(Parse(s.blob).packs, call.request), lookedUpAt := |s.log|)])
    case Upload(c, acknowledged) =>
      var call := s.calls[c];
      s.(files := s.files[KeyOf(call.request) := call.request.version.integrity],
         uploads := s.uploads + [UploadOf(call)],
         calls := s.calls[c := call.(phase := if acknowledged then Loading(0) else Done(Thrown(false)),
                                     uploadedAt := |s.uploads|)])
    case Load(c, now) =>
      var index := Parse(s.blob);
      var u := UpsertOf(s.calls[c].request, now);
      InPhase(s, c, Checking(s.calls[c].phase.attempt, index.indexVersion, Apply(index.packs, u), u, |s.log|))
    case Check(c) =>
      var p := s.calls[c].phase;
      if Parse(s.blob).indexVersion == p.expected
      then InPhase(s, c, Putting(p.attempt, p.expected, p.next, p.upsert, |s.log|, false))
      else s.(calls := s.calls[c := s.calls[c].(phase := AfterConflict(p.attempt),
                                                charged := s.calls[c].charged + [|s.log| - 1])])
    case Put(c, acknowledged) =>
      var p := s.calls[c].phase;
      InPhase(s, c, Done(if acknowledged then Published else Thrown(true)))
        .(blob := Some(Stored(Index(p.expected + 1, p.next))),
          log := s.log + [p.upsert],
          writers := s.writers + [c])
    case Abandon(c) => InPhase(s, c, s.calls[c].phase.(abandoned := true))
    case Throw(c) => InPhase(s, c, Done(Thrown(false)))
  }

  /** No put took effect between this put and the check that allowed it. */
  predicate Isolated(s: State, step: Step)
    requires Enabled(s, step)
  {
    step.Put? ==> s.calls[step.call].phase.checkedAt == |s.log|
  }

  predicate Fresh(s: State) {
    s.calls == map[] && s.log == [] && s.writers == [] && s.uploads == []
  }

  predicate IsRun(states: seq<State>, steps: seq<Step>) {
    && |states| == |steps| + 1
    && Fresh(states[0])
    && (forall i :: 0 <= i < |steps| ==> Enabled(states[i], steps[i]) && states[i + 1] == Next(states[i], steps[i]))
  }

  // ---------------------------------------------------------------------------------------------
  // What holds of every run, isolated or not: outcomes and conflicts
  // ---------------------------------------------------------------------------------------------

  function Commits(s: State, c: CallId): nat {
    multiset(s.writers)[c]
  }

  /** Conflicts are charged to distinct puts, made by other calls since this one began. */
  predicate FairlyCharged(s: State, c: CallId, charged: seq<int>, beganAt: nat) {
    && |s.log| == |s.writers|
    && (forall i :: 0 <= i < |charged| ==> beganAt <= charged[i] < |s.log| && s.writers[charged[i]] != c)
    && (forall i, j :: 0 <= i < j < |charged| ==> charged[i] < charged[j])
  }

  predicate OutcomeFits(s: State, c: CallId, call: Call) {
    match call.phase
    case LookingUp => call.charged == [] && Commits(s, c) == 0
    case Uploading => call.charged == [] && Commits(s, c) == 0
    case Loading(attempt) => attempt == |call.charged| < 3 && Commits(s, c) == 0
    case Checking(attempt, expected, _, u, loadedAt) =>
      && attempt == |call.charged| < 3
      && Commits(s, c) == 0
      && u == UpsertOf(call.request, u.now)
      && call.beganAt <= loadedAt <= |s.log|
      && (forall i :: 0 <= i < |call.charged| ==> call.charged[i] < loadedAt)
      && (loadedAt == |s.log| ==> Parse(s.blob).indexVersion == expected)
    case Putting(attempt, _, _, u, _, _) =>
      && attempt == |call.charged| < 3
      && Commits(s, c) == 0
      && u == UpsertOf(call.request, u.now)
    case Done(outcome) =>
      && Commits(s, c) == (if outcome.Published? || outcome == Thrown(true) then 1 else 0)
      && (outcome.RetriesExhausted? ==> |call.charged| == 3)
  }

  predicate CallFits(s: State, c: CallId, call: Call) {
    && call.beganAt <= |s.log|
    && FairlyCharged(s, c, call.charged, call.beganAt)
    && OutcomeFits(s, c, call)
  }

  predicate LogFits(s: State) {
    && |s.log| == |s.writers|
    && forall k :: 0 <= k < |s.log| ==>
         && s.writers[k] in s.calls
         && s.log[k] == UpsertOf(s.calls[s.writers[k]].request, s.log[k].now)
  }

  predicate Accounted(s: State) {
    && LogFits(s)
    && forall c :: c in s.calls ==> CallFits(s, c, s.calls[c])
  }

  lemma StepKeepsLog(s: State, step: Step)
    requires Accounted(s) && Enabled(s, step)
    ensures LogFits(Next(s, step))
  {
    if step.Put? {
      assert CallFits(s, step.call, s.calls[step.call]);
    }
  }

  lemma PutDisturbsNoOther(s: State, step: Step, c: CallId)
    requires Accounted(s) && Enabled(s, step) && step.Put? && c in s.calls && c != step.call
    ensures CallFits(Next(s, step), c, s.calls[c])
  {
    assert CallFits(s, c, s.calls[c]);
    var t := Next(s, step);
    assert Commits(t, c) == Commits(s, c);
    forall i | 0 <= i < |s.calls[c].charged| ensures t.writers[s.calls[c].charged[i]] != c {
      assert s.writers[s.calls[c].charged[i]] != c;
    }
  }

  /** No step disturbs another call's account. */
  lemma OtherCallsUndisturbed(s: State, step: Step, c: CallId)
    requires Accounted(s) && Enabled(s, step) && c in s.calls && c != step.call
    ensures CallFits(Next(s, step), c, s.calls[c])
  {
    if step.Put? {
      PutDisturbsNoOther(s, step, c);
    } else {
      assert CallFits(s, c, s.calls[c]);
      var t := Next(s, step);
      assert t.writers == s.writers && t.log == s.log && t.blob == s.blob;
    }
  }

  lemma NoCommitYet(s: State, c: CallId)
    requires LogFits(s) && c !in s.calls
    ensures Commits(s, c) == 0
  {
    forall k | 0 <= k < |s.writers| ensures s.writers[k] != c {}
    assert c !in s.writers;
  }

  /** A check fails only if someone else put since the load, and then the last put is theirs. */
  lemma ConflictHasForeignPut(s: State, c: CallId)
    requires Accounted(s) && c in s.calls && s.calls[c].phase.Checking?
    requires Parse(s.blob).indexVersion != s.calls[c].phase.expected
    ensures s.calls[c].phase.loadedAt < |s.log| && s.writers[|s.log| - 1] != c
  {
    assert CallFits(s, c, s.calls[c]);
    assert c !in multiset(s.writers);
    assert s.writers[|s.log| - 1] in s.writers;
  }

  lemma ConflictFits(s: State, c: CallId)
    requires Accounted(s) && c in s.calls && s.calls[c].phase.Checking?
    requires Parse(s.blob).indexVersion != s.calls[c].phase.expected
    ensures var t := Next(s, Check(c)); CallFits(t, c, t.calls[c])
  {
    assert CallFits(s, c, s.calls[c]);
    ConflictHasForeignPut(s, c);
    var call, t := s.calls[c], Next(s, Check(c));
    var charged := call.charged + [|s.log| - 1];
    forall i | 0 <= i < |charged| ensures call.beganAt <= charged[i] < |t.log| && t.writers[charged[i]] != c {
      assert i < |call.charged| ==> charged[i] == call.charged[i];
    }
  }

  lemma PutFits(s: State, c: CallId, acknowledged: bool)
    requires Accounted(s) && Enabled(s, Put(c, acknowledged))
    ensures var t := Next(s, Put(c, acknowledged)); CallFits(t, c, t.calls[c])
  {
    var call, t := s.calls[c], Next(s, Put(c, acknowledged));
    assert CallFits(s, c, call);
    assert Commits(t, c) == Commits(s, c) + 1;
    forall i | 0 <= i < |call.charged| ensures t.writers[call.charged[i]] != c {
      assert s.writers[call.charged[i]] != c;
    }
  }

  /** The log, the writers and the blob are all an account depends on. */
  lemma SameHistoryFits(s: State, t: State, c: CallId, call: Call)
    requires CallFits(s, c, call) && t.log == s.log && t.writers == s.writers && t.blob == s.blob
    ensures CallFits(t, c, call)
  {
  }

  lemma NewPhaseFits(s: State, step: Step)
    requires Accounted(s) && Enabled(s, step)
    requires step.LookUp? || step.Upload? || step.Load? || step.Abandon? || step.Throw?
    ensures CallFits(s, step.call, Next(s, step).calls[step.call])
  {
    assert CallFits(s, step.call, s.calls[step.call]);
  }

  lemma QuietStepFits(s: State, step: Step)
    requires Accounted(s) && Enabled(s, step)
    requires step.LookUp? || step.Upload? || step.Load? || step.Abandon? || step.Throw?
    ensures var t := Next(s, step); CallFits(t, step.call, t.calls[step.call])
  {
    var t := Next(s, step);
    NewPhaseFits(s, step);
    SameHistoryFits(s, t, step.call, t.calls[step.call]);
  }

  lemma ActingCallFits(s: State, step: Step)
    requires Accounted(s) && Enabled(s, step)
    ensures var t := Next(s, step); CallFits(t, step.call, t.calls[step.call])
  {
    var c := step.call;
    match step {
      case Begin(_, _) => NoCommitYet(s, c);
      case Put(_, acknowledged) => PutFits(s, c, acknowledged);
      case Check(_) =>
        if Parse(s.blob).indexVersion != s.calls[c].phase.expected {
          ConflictFits(s, c);
        } else {
          assert CallFits(s, c, s.calls[c]);
        }
      case _ => QuietStepFits(s, step);
    }
  }

  lemma StepKeepsAccounts(s: State, step: Step)
    requires Accounted(s) && Enabled(s, step)
    ensures Accounted(Next(s, step))
  {
    var t := Next(s, step);
    StepKeepsLog(s, step);
    ActingCallFits(s, step);
    forall c | c in t.calls ensures CallFits(t, c, t.calls[c]) {
      if c != step.call {
        OtherCallsUndisturbed(s, step, c);
      }
    }
  }

  lemma {:induction false} RunsAreAccounted(states: seq<State>, steps: seq<Step>, n: nat)
    requires IsRun(states, steps) && n < |states|
    ensures Accounted(states[n])
  {
    if n > 0 {
      RunsAreAccounted(states, steps, n - 1);
      StepKeepsAccounts(states[n - 1], steps[n - 1]);
    }
  }

  /** Among the first n steps is a put of this call, acknowledged or not as given. */
  predicate HasPut(steps: seq<Step>, n: nat, c: CallId, acknowledged: bool)
    requires n <= |steps|
  {
    exists i :: 0 <= i < n && steps[i] == Put(c, acknowledged)
  }

  lemma {:induction false} CallsStay(states: seq<State>, steps: seq<Step>, i: nat, n: nat, c: CallId)
    requires IsRun(states, steps) && i <= n < |states| && c in states[i].calls
    ensures c in states[n].calls
  {
    if i < n {
      CallsStay(states, steps, i, n - 1, c);
      assert states[n] == Next(states[n - 1], steps[n - 1]);
    }
  }

  lemma HasPutOneMore(steps: seq<Step>, n: nat, c: CallId, acknowledged: bool)
    requires n < |steps|
    ensures HasPut(steps, n + 1, c, acknowledged) <==>
            HasPut(steps, n, c, acknowledged) || steps[n] == Put(c, acknowledged)
  {
  }

  lemma AbsentHasNotPut(states: seq<State>, steps: seq<Step>, n: nat, c: CallId, acknowledged: bool)
    requires IsRun(states, steps) && n < |states| && c !in states[n].calls
    ensures !HasPut(steps, n, c, acknowledged)
  {
    if HasPut(steps, n, c, acknowledged) {
      var i :| 0 <= i < n && steps[i] == Put(c, acknowledged);
      assert Enabled(states[i], steps[i]);
      CallsStay(states, steps, i, n, c);
      assert false;
    }
  }

  function AfterPut(acknowledged: bool): Phase {
    Done(if acknowledged then Published else Thrown(true))
  }

  lemma PutStepEnds(s: State, step: Step, c: CallId, acknowledged: bool)
    requires Enabled(s, step) && c in Next(s, step).calls
    ensures Next(s, step).calls[c].phase == AfterPut(acknowledged) <==>
            (c in s.calls && s.calls[c].phase == AfterPut(acknowledged)) || step == Put(c, acknowledged)
  {
  }

  /** What a call's outcome says of its put is what the run's steps say. */
  lemma {:induction false} OutcomeTellsPut(states: seq<State>, steps: seq<Step>, n: nat, c: CallId, acknowledged: bool)
    requires IsRun(states, steps) && n < |states| && c in states[n].calls
    ensures states[n].calls[c].phase == AfterPut(acknowledged) <==> HasPut(steps, n, c, acknowledged)
  {
    if n > 0 {
      PutStepEnds(states[n - 1], steps[n - 1], c, acknowledged);
      HasPutOneMore(steps, n - 1, c, acknowledged);
      if c in states[n - 1].calls {
        OutcomeTellsPut(states, steps, n - 1, c, acknowledged);
      } else {
        AbsentHasNotPut(states, steps, n - 1, c, acknowledged);
      }
    }
  }

  /** The upsert has the request's pack, description and version, and its publisher as the owner. */
  predicate Carries(u: Upsert, r: Request) {
    && u.packId == r.packId && u.description == r.description
    && u.version == r.version && u.owner == r.version.publishedBy
  }

  /**
   * All or nothing, in every run: a call is reported published iff its put was acknowledged, and then its
   * upsert is in the log; any other call, ended or answered with an error and still waiting, has committed
   * iff the run holds its unacknowledged put; nobody commits twice; and a call that gave up was beaten by
   * three distinct puts of other calls.
   */
  lemma PublishIsAllOrNothing(states: seq<State>, steps: seq<Step>, n: nat, c: CallId)
    requires IsRun(states, steps) && n < |states| && c in states[n].calls
    ensures var s, call := states[n], states[n].calls[c];
            && (call.phase == Done(Published) <==> HasPut(steps, n, c, true))
            && Commits(s, c) == (if call.phase == Done(Published) || HasPut(steps, n, c, false) then 1 else 0)
            && (call.phase == Done(Published) ==>
                  exists k :: 0 <= k < |s.log| == |s.writers|
                    && s.writers[k] == c && Carries(s.log[k], call.request))
            && (call.phase == Done(RetriesExhausted) ==>
                  |call.charged| == 3 && FairlyCharged(s, c, call.charged, call.beganAt))
  {
    RunsAreAccounted(states, steps, n);
    OutcomeTellsPut(states, steps, n, c, true);
    OutcomeTellsPut(states, steps, n, c, false);
    var s := states[n];
    assert CallFits(s, c, s.calls[c]);
    if s.calls[c].phase == Done(Published) {
      assert c in s.writers;
      var k :| 0 <= k < |s.writers| && s.writers[k] == c;
    }
  }

  // ---------------------------------------------------------------------------------------------
  // What comes before a put, and what an error ends
  // ---------------------------------------------------------------------------------------------

  /** A lookup refuses a pack of another owner, then a version already listed, and lets through the rest. */
  lemma LookUpMeans(s: State, c: CallId)
    requires Enabled(s, LookUp(c))
    ensures var packs, r := Parse(s.blob).packs, s.calls[c].request;
            Next(s, LookUp(c)).calls[c].phase ==
            if OwnedByOther(packs, r.packId, r.version.publishedBy) then Done(Refused(NotOwner))
            else if AlreadyListed(packs, r.packId, r.version.version) then Done(Refused(DuplicateVersion))
            else Uploading
  {
    var r := s.calls[c].request;
    ScreenMeans(Parse(s.blob).packs, r.packId, r.version.version, r.version.publishedBy);
  }

  /** The clock reading of the call's last load. */
  function LastLoad(steps: seq<Step>, c: CallId): Option<string> {
    if steps == [] then None
    else
      match steps[|steps| - 1]
      case Load(x, now) => if x == c then Some(now) else LastLoad(steps[..|steps| - 1], c)
      case _ => LastLoad(steps[..|steps| - 1], c)
  }

  predicate WasUploaded(steps: seq<Step>, n: nat, c: CallId)
    requires n <= |steps|
  {
    exists i :: 0 <= i < n && steps[i] == Upload(c, true)
  }

  /** What a phase says of the steps before it. */
  predicate PhaseTells(steps: seq<Step>, n: nat, c: CallId, phase: Phase)
    requires n <= |steps|
  {
    match phase
    case Loading(_) => WasUploaded(steps, n, c)
    case Checking(_, _, _, u, _) => WasUploaded(steps, n, c) && LastLoad(steps[..n], c) == Some(u.now)
    case Putting(_, _, _, u, _, _) => WasUploaded(steps, n, c) && LastLoad(steps[..n], c) == Some(u.now)
    case _ => true
  }

  lemma PhaseKeepsTelling(steps: seq<Step>, n: nat, c: CallId, phase: Phase)
    requires n < |steps| && PhaseTells(steps, n, c, phase) && !(steps[n].Load? && steps[n].call == c)
    ensures PhaseTells(steps, n + 1, c, phase)
  {
    assert steps[..n + 1][..n] == steps[..n];
  }

  lemma NextPhaseTells(s: State, steps: seq<Step>, n: nat, c: CallId)
    requires n < |steps| && Enabled(s, steps[n]) && c in Next(s, steps[n]).calls
    requires c in s.calls ==> PhaseTells(steps, n, c, s.calls[c].phase)
    ensures PhaseTells(steps, n + 1, c, Next(s, steps[n]).calls[c].phase)
  {
    assert steps[..n + 1][..n] == steps[..n];
    if c in s.calls && !(steps[n].Load? && steps[n].call == c) {
      PhaseKeepsTelling(steps, n, c, s.calls[c].phase);
    }
  }

  lemma {:induction false} PhasesTell(states: seq<State>, steps: seq<Step>, n: nat, c: CallId)
    requires IsRun(states, steps) && n < |states| && c in states[n].calls
    ensures PhaseTells(steps, n, c, states[n].calls[c].phase)
  {
    if n > 0 {
      if c in states[n - 1].calls {
        PhasesTell(states, steps, n - 1, c);
      }
      NextPhaseTells(states[n - 1], steps, n - 1, c);
    }
  }

  /**
   * In every run a call puts only after its upload was acknowledged; what its put adds to the log is its
   * request, with the clock reading of its last load.
   */
  lemma PutsAreUploaded(states: seq<State>, steps: seq<Step>, n: nat)
    requires IsRun(states, steps) && n < |steps| && steps[n].Put?
    ensures var c, log := steps[n].call, states[n].log;
            && WasUploaded(steps, n, c)
            && |states[n + 1].log| == |log| + 1 && log <= states[n + 1].log
            && Carries(states[n + 1].log[|log|], states[n].calls[c].request)
            && LastLoad(steps[..n], c) == Some(states[n + 1].log[|log|].now)
  {
    var c := steps[n].call;
    assert Enabled(states[n], steps[n]) && states[n + 1] == Next(states[n], steps[n]);
    PhasesTell(states, steps, n, c);
    RunsAreAccounted(states, steps, n);
    assert CallFits(states[n], c, states[n].calls[c]);
  }

  lemma EndedStays(s: State, step: Step, c: CallId)
    requires Enabled(s, step) && c in s.calls && s.calls[c].phase.Done?
    ensures c in Next(s, step).calls && Next(s, step).calls[c].phase == s.calls[c].phase
  {
    assert step.call != c;
  }

  /** An upload or another request that throws ends its call for good. */
  lemma {:induction false} ErrorsEnd(states: seq<State>, steps: seq<Step>, i: nat, n: nat, c: CallId)
    requires IsRun(states, steps) && i < n < |states| && (steps[i] == Upload(c, false) || steps[i] == Throw(c))
    ensures c in states[n].calls && states[n].calls[c].phase == Done(Thrown(false))
  {
    assert states[n] == Next(states[n - 1], steps[n - 1]);
    if i < n - 1 {
      ErrorsEnd(states, steps, i, n - 1, c);
      EndedStays(states[n - 1], steps[n - 1], c);
    }
  }

  // ---------------------------------------------------------------------------------------------
  // Serializability, exactly when the puts are isolated
  // ---------------------------------------------------------------------------------------------

  /** The blob is the starting index with every put so far applied one after another. */
  predicate Serial(s0: State, s: State) {
    var start := Parse(s0.blob);
    Parse(s.blob) == Index(start.indexVersion + |s.log|, Replay(start.packs, s.log))
  }

  predicate PlansAt(s0: State, s: State, at: nat, expected: nat, next: seq<Entry>, u: Upsert) {
    var start := Parse(s0.blob);
    && at <= |s.log|
    && expected == start.indexVersion + at
    && next == Apply(Replay(start.packs, s.log[..at]), u)
  }

  predicate PhasePlanned(s0: State, s: State, phase: Phase) {
    match phase
    case Checking(_, expected, next, u, loadedAt) => PlansAt(s0, s, loadedAt, expected, next, u)
    case Putting(_, expected, next, u, checkedAt, _) => PlansAt(s0, s, checkedAt, expected, next, u)
    case _ => true
  }

  /** Each call between its load and its put holds the upsert applied to an earlier serial index. */
  predicate Planned(s0: State, s: State) {
    forall c :: c in s.calls ==> PhasePlanned(s0, s, s.calls[c].phase)
  }

  lemma LongerLogKeepsPlan(s0: State, s: State, t: State, phase: Phase)
    requires s.log <= t.log && PhasePlanned(s0, s, phase)
    ensures PhasePlanned(s0, t, phase)
  {
    forall at: nat | at <= |s.log| ensures t.log[..at] == s.log[..at] {}
  }

  lemma ActingPlan(s0: State, s: State, step: Step)
    requires Serial(s0, s) && Planned(s0, s) && Enabled(s, step)
    ensures PhasePlanned(s0, Next(s, step), Next(s, step).calls[step.call].phase)
  {
    assert s.log[..|s.log|] == s.log;
    if step.Check? || step.Abandon? {
      assert PhasePlanned(s0, s, s.calls[step.call].phase);
    }
  }

  lemma StepKeepsPlans(s0: State, s: State, step: Step)
    requires Serial(s0, s) && Planned(s0, s) && Enabled(s, step)
    ensures Planned(s0, Next(s, step))
  {
    var t := Next(s, step);
    ActingPlan(s0, s, step);
    forall c | c in t.calls ensures PhasePlanned(s0, t, t.calls[c].phase) {
      if c != step.call {
        LongerLogKeepsPlan(s0, s, t, s.calls[c].phase);
      }
    }
  }

  lemma PutIsSerialIffCurrent(s0: State, s: State, t: State, at: nat, expected: nat, next: seq<Entry>, u: Upsert)
    requires PlansAt(s0, s, at, expected, next, u)
    requires t.blob == Some(Stored(Index(expected + 1, next))) && t.log == s.log + [u]
    ensures Serial(s0, t) <==> at == |s.log|
  {
    assert t.log[..|t.log| - 1] == s.log;
    if at == |s.log| {
      assert s.log[..at] == s.log;
    }
  }

  /** One step keeps the blob serial exactly when it is isolated. */
  lemma StepKeepsSerialIffIsolated(s0: State, s: State, step: Step)
    requires Serial(s0, s) && Planned(s0, s) && Enabled(s, step)
    ensures Serial(s0, Next(s, step)) <==> Isolated(s, step)
  {
    if step.Put? {
      var p := s.calls[step.call].phase;
      assert PhasePlanned(s0, s, p);
      PutIsSerialIffCurrent(s0, s, Next(s, step), p.checkedAt, p.expected, p.next, p.upsert);
    }
  }

  lemma {:induction false} IsolatedRunIsSerial(states: seq<State>, steps: seq<Step>, n: nat)
    requires IsRun(states, steps) && n < |states|
    requires forall i :: 0 <= i < n ==> Isolated(states[i], steps[i])
    ensures Serial(states[0], states[n]) && Planned(states[0], states[n])
  {
    if n > 0 {
      IsolatedRunIsSerial(states, steps, n - 1);
      StepKeepsPlans(states[0], states[n - 1], steps[n - 1]);
      StepKeepsSerialIffIsolated(states[0], states[n - 1], steps[n - 1]);
    }
  }

  lemma {:induction false} SerialRunIsPlanned(states: seq<State>, steps: seq<Step>, n: nat)
    requires IsRun(states, steps) && n < |states|
    requires forall i :: 0 <= i < |states| ==> Serial(states[0], states[i])
    ensures Planned(states[0], states[n])
  {
    if n > 0 {
      SerialRunIsPlanned(states, steps, n - 1);
      StepKeepsPlans(states[0], states[n - 1], steps[n - 1]);
    }
  }

  /**
   * Serializability: the stored index equals the puts applied in commit order, with `indexVersion`
   * counting them, at every moment of a run if and only if no put fell between another call's check
   * and its put.
   */
  lemma SerializableIffIsolated(states: seq<State>, steps: seq<Step>)
    requires IsRun(states, steps)
    ensures (forall i :: 0 <= i < |states| ==> Serial(states[0], states[i]))
       <==> (forall i :: 0 <= i < |steps| ==> Isolated(states[i], steps[i]))
  {
    if forall i :: 0 <= i < |steps| ==> Isolated(states[i], steps[i]) {
      forall i | 0 <= i < |states| ensures Serial(states[0], states[i]) {
        IsolatedRunIsSerial(states, steps, i);
      }
    }
    if forall i :: 0 <= i < |states| ==> Serial(states[0], states[i]) {
      forall i | 0 <= i < |steps| ensures Isolated(states[i], steps[i]) {
        SerialRunIsPlanned(states, steps, i);
        StepKeepsSerialIffIsolated(states[0], states[i], steps[i]);
        assert Serial(states[0], states[i + 1]);
      }
    }
  }

  /** In isolated runs nothing committed is ever lost, and packs only grow. */
  lemma IsolatedRunsLoseNothing(states: seq<State>, steps: seq<Step>, m: nat, n: nat)
    requires IsRun(states, steps) && m <= n < |states|
    requires forall i :: 0 <= i < n ==> Isolated(states[i], steps[i])
    ensures forall k :: 0 <= k < |states[n].log| ==>
              var e := Find(Parse(states[n].blob).packs, states[n].log[k].packId);
              e.Some? && states[n].log[k].version in e.value.versions
    ensures forall id :: Find(Parse(states[m].blob).packs, id).Some? ==>
              Extends(Find(Parse(states[n].blob).packs, id), Find(Parse(states[m].blob).packs, id).value)
  {
    var packs := Parse(states[0].blob).packs;
    IsolatedRunIsSerial(states, steps, m);
    IsolatedRunIsSerial(states, steps, n);
    LogsGrow(states, steps, m, n);
    forall k | 0 <= k < |states[n].log|
      ensures var e := Find(Parse(states[n].blob).packs, states[n].log[k].packId);
              e.Some? && states[n].log[k].version in e.value.versions
    {
      ReplayKeepsEveryVersion(packs, states[n].log, k);
    }
    var at := |states[m].log|;
    assert states[n].log[..at] == states[m].log;
    forall id | Find(Parse(states[m].blob).packs, id).Some?
      ensures Extends(Find(Parse(states[n].blob).packs, id), Find(Parse(states[m].blob).packs, id).value)
    {
      ReplayOnlyExtends(packs, states[n].log, at, id);
    }
  }

  lemma {:induction false} LogsGrow(states: seq<State>, steps: seq<Step>, m: nat, n: nat)
    requires IsRun(states, steps) && m <= n < |states|
    ensures states[m].log <= states[n].log
  {
    if m < n {
      LogsGrow(states, steps, m, n - 1);
    }
  }

  /**
   * The first put that is not isolated throws away every put since its check: the registry is left with
   * that many versions fewer than were committed, and `indexVersion` as far behind the number of commits. It
   * stays where it was after one missed put and falls after more.
   */
  lemma OverlappingPutLosesVersions(states: seq<State>, steps: seq<Step>, n: nat)
    requires IsRun(states, steps) && n < |steps| && steps[n].Put?
    requires DistinctIds(Parse(states[0].blob).packs)
    requires forall i :: 0 <= i < n ==> Isolated(states[i], steps[i])
    requires !Isolated(states[n], steps[n])
    ensures var start, end := Parse(states[0].blob), Parse(states[n + 1].blob);
            var missed := |states[n].log| - states[n].calls[steps[n].call].phase.checkedAt;
            && missed > 0
            && TotalVersions(end.packs) == TotalVersions(start.packs) + |states[n + 1].log| - missed
            && end.indexVersion == start.indexVersion + |states[n + 1].log| - missed
            && end.indexVersion == Parse(states[n].blob).indexVersion + 1 - missed
  {
    IsolatedRunIsSerial(states, steps, n);
    var s := states[n];
    var p := s.calls[steps[n].call].phase;
    var packs := Parse(states[0].blob).packs;
    assert PhasePlanned(states[0], s, p);
    ReplayCounts(packs, s.log[..p.checkedAt]);
    ApplyAddsOneVersion(Replay(packs, s.log[..p.checkedAt]), p.upsert);
  }

  /** Some run ends here; `isolated` asks for one whose every put is isolated. */
  ghost predicate Reachable(s: State, isolated: bool) {
    exists states: seq<State>, steps: seq<Step> :: IsRun(states, steps) && states[|steps|] == s
      && (isolated ==> AllIsolated(states, steps))
  }

  predicate AllIsolated(states: seq<State>, steps: seq<Step>)
    requires IsRun(states, steps)
  {
    forall i :: 0 <= i < |steps| ==> Isolated(states[i], steps[i])
  }

  lemma RunExtends(states: seq<State>, steps: seq<Step>, step: Step, t: State)
    requires IsRun(states, steps) && Enabled(states[|steps|], step) && t == Next(states[|steps|], step)
    ensures IsRun(states + [t], steps + [step])
    ensures AllIsolated(states, steps) && Isolated(states[|steps|], step) ==> AllIsolated(states + [t], steps + [step])
  {
    var more, moreSteps := states + [t], steps + [step];
    forall i | 0 <= i < |moreSteps|
      ensures Enabled(more[i], moreSteps[i]) && more[i + 1] == Next(more[i], moreSteps[i])
    {
      assert i < |steps| ==> more[i] == states[i] && more[i + 1] == states[i + 1] && moreSteps[i] == steps[i];
    }
  }

  lemma ReachNext(s: State, step: Step, t: State, isolated: bool)
    requires Reachable(s, isolated) && Enabled(s, step) && t == Next(s, step)
    requires isolated ==> Isolated(s, step)
    ensures Reachable(t, isolated)
  {
    var states: seq<State>, steps: seq<Step> :|
      IsRun(states, steps) && states[|steps|] == s && (isolated ==> AllIsolated(states, steps));
    RunExtends(states, steps, step, t);
    assert (states + [t])[|steps + [step]|] == t;
  }

  /** Two calls with nothing put yet, and what they have uploaded. */
  function Race(r0: Request, r1: Request, p0: Phase, p1: Phase, uploads: seq<FileUpload>): State {
    State(None, FilesOf(uploads),
          map[0 := Call(r0, p0, [], 0, 0, 0), 1 := Call(r1, p1, [], 0, 0, if |uploads| == 2 then 1 else 0)],
          [], [], uploads)
  }

  function FilesOf(uploads: seq<FileUpload>): map<FileKey, string> {
    if uploads == [] then map[]
    else
      var u := uploads[|uploads| - 1];
      FilesOf(uploads[..|uploads| - 1])[u.key := u.integrity]
  }

  function UploadFor(r: Request): FileUpload {
    FileUpload(KeyOf(r), r.version.integrity, 0)
  }

  function Both(r0: Request, r1: Request): seq<FileUpload> {
    [UploadFor(r0), UploadFor(r1)]
  }

  function Plan(r: Request): Phase {
    Checking(0, 0, Apply([], UpsertOf(r, "")), UpsertOf(r, ""), 0)
  }

  function Ready(r: Request): Phase {
    Putting(0, 0, Apply([], UpsertOf(r, "")), UpsertOf(r, ""), 0, false)
  }

  lemma RaceOpens(r0: Request, r1: Request)
    ensures Reachable(Race(r0, r1, LookingUp, LookingUp, []), true)
  {
    var s0 := State(None, map[], map[], [], [], []);
    var none: seq<Step> := [];
    assert IsRun([s0], none) && [s0][|none|] == s0;
    var s1 := s0.(calls := map[0 := Call(r0, LookingUp, [], 0, 0, 0)]);
    ReachNext(s0, Begin(0, r0), s1, true);
    ReachNext(s1, Begin(1, r1), Race(r0, r1, LookingUp, LookingUp, []), true);
  }

  lemma RaceLooksUp(r0: Request, r1: Request)
    ensures Reachable(Race(r0, r1, Uploading, Uploading, []), true)
  {
    RaceOpens(r0, r1);
    assert AfterLookUp([], r0) == Uploading && AfterLookUp([], r1) == Uploading;
    var s := Race(r0, r1, Uploading, LookingUp, []);
    ReachNext(Race(r0, r1, LookingUp, LookingUp, []), LookUp(0), s, true);
    ReachNext(s, LookUp(1), Race(r0, r1, Uploading, Uploading, []), true);
  }

  lemma RaceBegins(r0: Request, r1: Request)
    ensures Reachable(Race(r0, r1, Loading(0), Loading(0), Both(r0, r1)), true)
  {
    RaceLooksUp(r0, r1);
    var one := [UploadFor(r0)];
    var s := Race(r0, r1, Loading(0), Uploading, one);
    assert one[..0] == [] && Both(r0, r1)[..1] == one;
    ReachNext(Race(r0, r1, Uploading, Uploading, []), Upload(0, true), s, true);
    ReachNext(s, Upload(1, true), Race(r0, r1, Loading(0), Loading(0), Both(r0, r1)), true);
  }

  lemma RaceLoads(r0: Request, r1: Request)
    ensures Reachable(Race(r0, r1, Plan(r0), Loading(0), Both(r0, r1)), true)
  {
    RaceBegins(r0, r1);
    var both := Both(r0, r1);
    ReachNext(Race(r0, r1, Loading(0), Loading(0), both), Load(0, ""), Race(r0, r1, Plan(r0), Loading(0), both), true);
  }

  lemma RacePlans(r0: Request, r1: Request)
    ensures Reachable(Race(r0, r1, Plan(r0), Plan(r1), Both(r0, r1)), true)
  {
    RaceLoads(r0, r1);
    var both := Both(r0, r1);
    ReachNext(Race(r0, r1, Plan(r0), Loading(0), both), Load(1, ""), Race(r0, r1, Plan(r0), Plan(r1), both), true);
  }

  lemma RaceChecks(r0: Request, r1: Request)
    ensures Reachable(Race(r0, r1, Ready(r0), Ready(r1), Both(r0, r1)), true)
  {
    RacePlans(r0, r1);
    var both := Both(r0, r1);
    ReachNext(Race(r0, r1, Plan(r0), Plan(r1), both), Check(0), Race(r0, r1, Ready(r0), Plan(r1), both), true);
    ReachNext(Race(r0, r1, Ready(r0), Plan(r1), both), Check(1), Race(r0, r1, Ready(r0), Ready(r1), both), true);
  }

  predicate BothPublished(s: State, r0: Request, r1: Request) {
    && 0 in s.calls && s.calls[0].phase == Done(Published) && s.calls[0].request == r0
    && 1 in s.calls && s.calls[1].phase == Done(Published) && s.calls[1].request == r1
  }

  predicate LostUpdate(s: State, r0: Request, r1: Request) {
    && BothPublished(s, r0, r1)
    && var pack := Find(Parse(s.blob).packs, r0.packId);
       pack.Some? && r0.version !in pack.value.versions
  }

  lemma Weaken(s: State)
    requires Reachable(s, true)
    ensures Reachable(s, false)
  {
    var states: seq<State>, steps: seq<Step> :|
      IsRun(states, steps) && states[|steps|] == s && AllIsolated(states, steps);
    assert IsRun(states, steps) && states[|steps|] == s;
  }

  lemma BothPut(r0: Request, r1: Request) returns (s: State)
    ensures Reachable(s, false) && BothPublished(s, r0, r1)
    ensures Parse(s.blob).packs == Apply([], UpsertOf(r1, ""))
  {
    RaceChecks(r0, r1);
    var checked := Race(r0, r1, Ready(r0), Ready(r1), Both(r0, r1));
    Weaken(checked);
    var t := Next(checked, Put(0, true));
    ReachNext(checked, Put(0, true), t, false);
    s := Next(t, Put(1, true));
    ReachNext(t, Put(1, true), s, false);
  }

  /** Overlapping puts do happen: both calls report success and one version is gone. */
  lemma LostUpdateIsReachable(r0: Request, r1: Request)
    requires r0.packId == r1.packId && r0.version != r1.version
    ensures exists s :: Reachable(s, false) && LostUpdate(s, r0, r1)
  {
    var s := BothPut(r0, r1);
    FindAfterApply([], UpsertOf(r1, ""), r0.packId);
    assert LostUpdate(s, r0, r1);
  }

  /** A put can take effect and throw, at once or after it was abandoned: an error, and the version listed. */
  lemma LandedPutCanThrow(r0: Request, r1: Request, abandoned: bool)
    ensures exists s :: Reachable(s, true) && 0 in s.calls && s.calls[0].request == r0
              && s.calls[0].phase == Done(Thrown(true)) && IsListed(Parse(s.blob).packs, r0.packId, r0.version)
  {
    RaceChecks(r0, r1);
    var s := Race(r0, r1, Ready(r0), Ready(r1), Both(r0, r1));
    if abandoned {
      var waiting := Next(s, Abandon(0));
      ReachNext(s, Abandon(0), waiting, true);
      PutLands(waiting, r0);
    } else {
      PutLands(s, r0);
    }
  }

  lemma PutLands(s: State, r: Request)
    requires Reachable(s, true) && 0 in s.calls && s.calls[0].request == r && s.log == []
    requires s.calls[0].phase.Putting? && s.calls[0].phase.checkedAt == 0
    requires s.calls[0].phase.next == Apply([], UpsertOf(r, ""))
    ensures exists t :: Reachable(t, true) && 0 in t.calls && t.calls[0].request == r
              && t.calls[0].phase == Done(Thrown(true)) && IsListed(Parse(t.blob).packs, r.packId, r.version)
  {
    var t := Next(s, Put(0, false));
    ReachNext(s, Put(0, false), t, true);
    FindAfterApply([], UpsertOf(r, ""), r.packId);
    assert r.version in Updated(None, UpsertOf(r, "")).versions;
    assert IsListed(Parse(t.blob).packs, r.packId, r.version);
  }

  /** The first of two calls has published, the second has looked up and uploaded before that. */
  function Second(r0: Request, r1: Request, phase: Phase): State {
    State(Some(Stored(Index(1, Apply([], UpsertOf(r0, ""))))), FilesOf(Both(r0, r1)),
          map[0 := Call(r0, Done(Published), [], 0, 0, 0), 1 := Call(r1, phase, [], 0, 0, 1)],
          [UpsertOf(r0, "")], [0], Both(r0, r1))
  }

  lemma FirstChecks(r0: Request, r1: Request)
    ensures Reachable(Race(r0, r1, Ready(r0), Loading(0), Both(r0, r1)), true)
  {
    RaceLoads(r0, r1);
    var both := Both(r0, r1);
    ReachNext(Race(r0, r1, Plan(r0), Loading(0), both), Check(0), Race(r0, r1, Ready(r0), Loading(0), both), true);
  }

  lemma FirstPublishes(r0: Request, r1: Request)
    ensures Reachable(Second(r0, r1, Loading(0)), true)
  {
    FirstChecks(r0, r1);
    ReachNext(Race(r0, r1, Ready(r0), Loading(0), Both(r0, r1)), Put(0, true), Second(r0, r1, Loading(0)), true);
  }

  lemma SecondPublishes(r0: Request, r1: Request) returns (s: State)
    ensures Reachable(s, true) && BothPublished(s, r0, r1)
    ensures Parse(s.blob).packs == Apply(Apply([], UpsertOf(r0, "")), UpsertOf(r1, ""))
  {
    FirstPublishes(r0, r1);
    var packs, u := Apply([], UpsertOf(r0, "")), UpsertOf(r1, "");
    var plan, ready := Checking(0, 1, Apply(packs, u), u, 1), Putting(0, 1, Apply(packs, u), u, 1, false);
    ReachNext(Second(r0, r1, Loading(0)), Load(1, ""), Second(r0, r1, plan), true);
    ReachNext(Second(r0, r1, plan), Check(1), Second(r0, r1, ready), true);
    s := Next(Second(r0, r1, ready), Put(1, true));
    ReachNext(Second(r0, r1, ready), Put(1, true), s, true);
  }
}
