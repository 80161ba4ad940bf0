/**
 * The tarballs stored by concurrent publishes.
 *
 * A publish uploads before it tries to register, and an upload overwrites whatever its path holds. Here it
 * is said when a registered version's file still has the bytes that were registered.
 */
module PublishFiles {
  import opened Text
  import opened PackRegistry
  import opened PublishProtocol
  import opened PublishScreening

  function LastUpload(uploads: seq<FileUpload>, key: FileKey): Option<string> {
    if uploads == [] then None
    else
      var u := uploads[|uploads| - 1];
      if u.key == key then Some(u.integrity) else LastUpload(uploads[..|uploads| - 1], key)
  }

  function FileAt(files: map<FileKey, string>, key: FileKey): Option<string> {
    if key in files then Some(files[key]) else None
  }

  /** A file is what was last uploaded to its path, or what was there at the start. */
  ghost predicate FilesFollow(s0: State, s: State) {
    forall key :: FileAt(s.files, key) ==
      if LastUpload(s.uploads, key).Some? then LastUpload(s.uploads, key) else FileAt(s0.files, key)
  }

  /** The call's own upload is on record. */
  predicate Uploaded(s: State, call: Call) {
    call.uploadedAt < |s.uploads| && s.uploads[call.uploadedAt] == UploadOf(call)
  }

  predicate HasUploaded(phase: Phase) {
    phase.Loading? || phase.Checking? || phase.Putting?
  }

  predicate UploadsFit(s: State) {
    && |s.writers| == |s.log|
    && (forall c :: c in s.calls && HasUploaded(s.calls[c].phase) ==> Uploaded(s, s.calls[c]))
    && (forall k :: 0 <= k < |s.log| ==> s.writers[k] in s.calls && Uploaded(s, s.calls[s.writers[k]]))
  }

  lemma LastUploadOneMore(uploads: seq<FileUpload>, u: FileUpload, key: FileKey)
    ensures LastUpload(uploads + [u], key) == if u.key == key then Some(u.integrity) else LastUpload(uploads, key)
  {
    assert (uploads + [u])[..|uploads|] == uploads;
  }

  lemma StepKeepsFiles(s0: State, s: State, step: Step)
    requires FilesFollow(s0, s) && Enabled(s, step)
    ensures FilesFollow(s0, Next(s, step))
  {
    if step.Upload? {
      var t := Next(s, step);
      forall key ensures FileAt(t.files, key) ==
        if LastUpload(t.uploads, key).Some? then LastUpload(t.uploads, key) else FileAt(s0.files, key)
      {
        LastUploadOneMore(s.uploads, UploadOf(s.calls[step.call]), key);
      }
    }
  }

  lemma WriterIsDone(s: State, k: nat)
    requires Accounted(s) && k < |s.log|
    ensures s.writers[k] in s.calls && s.calls[s.writers[k]].phase.Done?
  {
    var c := s.writers[k];
    assert CallFits(s, c, s.calls[c]);
    assert c in multiset(s.writers);
  }

  lemma StaysUploaded(s: State, step: Step, c: CallId)
    requires Enabled(s, step) && c in s.calls && Uploaded(s, s.calls[c])
    requires HasUploaded(s.calls[c].phase) || s.calls[c].phase.Done?
    ensures Uploaded(Next(s, step), Next(s, step).calls[c])
  {
  }

  lemma UploadIsRecorded(s: State, step: Step, c: CallId)
    requires UploadsFit(s) && Enabled(s, step) && c in Next(s, step).calls
    requires HasUploaded(Next(s, step).calls[c].phase)
    ensures Uploaded(Next(s, step), Next(s, step).calls[c])
  {
    if c in s.calls && HasUploaded(s.calls[c].phase) {
      StaysUploaded(s, step, c);
    }
  }

  lemma WriterStaysUploaded(s: State, step: Step, k: nat)
    requires UploadsFit(s) && Accounted(s) && Enabled(s, step) && k < |Next(s, step).log|
    ensures var t := Next(s, step);
            |t.writers| == |t.log| && t.writers[k] in t.calls && Uploaded(t, t.calls[t.writers[k]])
  {
    if k < |s.log| {
      WriterIsDone(s, k);
      StaysUploaded(s, step, s.writers[k]);
    } else {
      StaysUploaded(s, step, step.call);
    }
  }

  lemma StepKeepsUploads(s: State, step: Step)
    requires UploadsFit(s) && Accounted(s) && Enabled(s, step)
    ensures UploadsFit(Next(s, step))
  {
    var t := Next(s, step);
    forall c | c in t.calls && HasUploaded(t.calls[c].phase) ensures Uploaded(t, t.calls[c]) {
      UploadIsRecorded(s, step, c);
    }
    forall k | 0 <= k < |t.log| ensures t.writers[k] in t.calls && Uploaded(t, t.calls[t.writers[k]]) {
      WriterStaysUploaded(s, step, k);
    }
  }

  lemma {:induction false} RunsKeepFiles(states: seq<State>, steps: seq<Step>, n: nat)
    requires IsRun(states, steps) && n < |states|
    ensures FilesFollow(states[0], states[n]) && UploadsFit(states[n])
  {
    if n > 0 {
      RunsKeepFiles(states, steps, n - 1);
      RunsAreAccounted(states, steps, n - 1);
      StepKeepsFiles(states[0], states[n - 1], steps[n - 1]);
      StepKeepsUploads(states[n - 1], steps[n - 1]);
    }
  }

  // ---------------------------------------------------------------------------------------------
  // One registered version
  // ---------------------------------------------------------------------------------------------

  function KeyOfPut(u: Upsert): FileKey {
    (u.packId, u.version.version)
  }

  /** The upload at `j` is the last one to its path. */
  predicate IsLast(uploads: seq<FileUpload>, j: nat) {
    j < |uploads| && forall i :: j < i < |uploads| ==> uploads[i].key != uploads[j].key
  }

  /** After the upload of the call that registered it, other bytes came to stay at the version's path. */
  predicate Overwritten(s: State, k: nat)
    requires UploadsFit(s) && k < |s.log|
  {
    exists j :: s.calls[s.writers[k]].uploadedAt < j < |s.uploads| && IsLast(s.uploads, j)
      && s.uploads[j].key == KeyOfPut(s.log[k]) && s.uploads[j].integrity != s.log[k].version.integrity
  }

  lemma {:induction false} LastUploadAt(uploads: seq<FileUpload>, from: nat) returns (j: nat)
    requires from < |uploads|
    ensures from <= j < |uploads| && uploads[j].key == uploads[from].key && IsLast(uploads, j)
    ensures LastUpload(uploads, uploads[from].key) == Some(uploads[j].integrity)
    decreases |uploads|
  {
    var last := |uploads| - 1;
    if uploads[last].key == uploads[from].key {
      j := last;
    } else {
      j := LastUploadAt(uploads[..last], from);
    }
  }

  /** In every run, a registered version's file has its bytes exactly if it has not been overwritten. */
  lemma RegisteredFileIsIntact(states: seq<State>, steps: seq<Step>, n: nat, k: nat)
    requires IsRun(states, steps) && n < |states| && k < |states[n].log|
    ensures var s := states[n];
            UploadsFit(s)
            && (FileAt(s.files, KeyOfPut(s.log[k])) == Some(s.log[k].version.integrity) <==> !Overwritten(s, k))
  {
    RunsKeepFiles(states, steps, n);
    RunsAreAccounted(states, steps, n);
    var s := states[n];
    var own := s.calls[s.writers[k]].uploadedAt;
    assert s.uploads[own].key == KeyOfPut(s.log[k]) && s.uploads[own].integrity == s.log[k].version.integrity;
    var j := LastUploadAt(s.uploads, own);
    if Overwritten(s, k) {
      var i :| own < i < |s.uploads| && IsLast(s.uploads, i)
        && s.uploads[i].key == KeyOfPut(s.log[k]) && s.uploads[i].integrity != s.log[k].version.integrity;
      assert i == j;
    }
  }

  // ---------------------------------------------------------------------------------------------
  // Which uploads can overwrite
  // ---------------------------------------------------------------------------------------------

  /** Whoever uploaded to this path had looked it up when its version was not listed yet. */
  predicate FreshWhenLookedUp(s0: State, s: State, u: FileUpload) {
    && u.lookedUpAt <= |s.log|
    && !Taken(Replay(Parse(s0.blob).packs, s.log[..u.lookedUpAt]), u.key.0, u.key.1)
  }

  predicate UploadsWereFresh(s0: State, s: State) {
    forall j :: 0 <= j < |s.uploads| ==> FreshWhenLookedUp(s0, s, s.uploads[j])
  }

  lemma StepKeepsFresh(s0: State, s: State, step: Step)
    requires UploadsWereFresh(s0, s) && AllCleared(s0, s) && Enabled(s, step)
    ensures UploadsWereFresh(s0, Next(s, step))
  {
    var t := Next(s, step);
    forall j | 0 <= j < |t.uploads| ensures FreshWhenLookedUp(s0, t, t.uploads[j]) {
      if j < |s.uploads| {
        assert FreshWhenLookedUp(s0, s, s.uploads[j]);
        assert t.log[..s.uploads[j].lookedUpAt] == s.log[..s.uploads[j].lookedUpAt];
      } else {
        var call := s.calls[step.call];
        assert Cleared(s0, s, call);
        PassedIsNotTaken(Replay(Parse(s0.blob).packs, s.log[..call.lookedUpAt]), call.request);
      }
    }
  }

  lemma {:induction false} RunsUploadFresh(states: seq<State>, steps: seq<Step>, n: nat)
    requires IsRun(states, steps) && n < |states| && AllIsolated(states, steps)
    ensures UploadsWereFresh(states[0], states[n])
  {
    if n > 0 {
      RunsUploadFresh(states, steps, n - 1);
      RunsAreCleared(states, steps, n - 1);
      StepKeepsFresh(states[0], states[n - 1], steps[n - 1]);
    }
  }

  /**
   * In isolated runs only a call that looked the version up before it was registered ever uploads to its
   * path, and nobody uploads to the path of a version that was listed from the start.
   */
  lemma OnlyEarlierLookupsOverwrite(states: seq<State>, steps: seq<Step>, n: nat, j: nat)
    requires IsRun(states, steps) && n < |states| && AllIsolated(states, steps) && j < |states[n].uploads|
    ensures var s, u := states[n], states[n].uploads[j];
            && !Taken(Parse(states[0].blob).packs, u.key.0, u.key.1)
            && forall k :: 0 <= k < |s.log| && KeyOfPut(s.log[k]) == u.key ==> u.lookedUpAt <= k
  {
    RunsUploadFresh(states, steps, n);
    var s, u, packs := states[n], states[n].uploads[j], Parse(states[0].blob).packs;
    assert FreshWhenLookedUp(states[0], s, u);
    var seen := s.log[..u.lookedUpAt];
    TakenSince(packs, seen, 0, u.key.0, u.key.1);
    assert seen[..0] == [];
    assert forall k :: 0 <= k < |seen| ==> seen[k] == s.log[k];
  }

  // ---------------------------------------------------------------------------------------------
  // The whole registry
  // ---------------------------------------------------------------------------------------------

  /** Every listed version's file has the bytes it was listed with. */
  ghost predicate Intact(s: State) {
    forall id, v :: IsListed(Parse(s.blob).packs, id, v) ==> FileAt(s.files, (id, v.version)) == Some(v.integrity)
  }

  lemma {:induction false} LastUploadIsAmong(uploads: seq<FileUpload>, key: FileKey)
    ensures LastUpload(uploads, key).Some? ==> exists j :: 0 <= j < |uploads| && uploads[j].key == key
  {
    if uploads != [] && uploads[|uploads| - 1].key != key {
      LastUploadIsAmong(uploads[..|uploads| - 1], key);
    }
  }

  lemma StartFileStays(states: seq<State>, steps: seq<Step>, n: nat, id: string, v: PackVersion)
    requires IsRun(states, steps) && n < |states| && AllIsolated(states, steps)
    requires IsListed(Parse(states[0].blob).packs, id, v)
    ensures FileAt(states[n].files, (id, v.version)) == FileAt(states[0].files, (id, v.version))
  {
    var key := (id, v.version);
    RunsKeepFiles(states, steps, n);
    assert Taken(Parse(states[0].blob).packs, id, v.version);
    if LastUpload(states[n].uploads, key).Some? {
      LastUploadIsAmong(states[n].uploads, key);
      var j :| 0 <= j < |states[n].uploads| && states[n].uploads[j].key == key;
      OnlyEarlierLookupsOverwrite(states, steps, n, j);
      assert false;
    }
  }

  /** Every listed version is from the start or was put, and every put version is listed. */
  lemma ListedInRun(states: seq<State>, steps: seq<Step>, n: nat, id: string, v: PackVersion)
    requires IsRun(states, steps) && n < |states| && AllIsolated(states, steps)
    ensures IsListed(Parse(states[n].blob).packs, id, v) <==>
            || IsListed(Parse(states[0].blob).packs, id, v)
            || exists k :: 0 <= k < |states[n].log| && states[n].log[k].packId == id && states[n].log[k].version == v
  {
    IsolatedRunIsSerial(states, steps, n);
    ListedFrom(Parse(states[0].blob).packs, states[n].log, id, v);
  }

  ghost predicate NoneOverwritten(s: State) {
    UploadsFit(s) && forall k :: 0 <= k < |s.log| ==> !Overwritten(s, k)
  }

  /**
   * In isolated runs from a sound start, every listed version's file has its registered bytes exactly if
   * no registered version has been overwritten since its own call's upload.
   */
  lemma IntactIffNoneOverwritten(states: seq<State>, steps: seq<Step>, n: nat)
    requires IsRun(states, steps) && n < |states| && AllIsolated(states, steps) && Intact(states[0])
    ensures Intact(states[n]) <==> NoneOverwritten(states[n])
  {
    RunsKeepFiles(states, steps, n);
    if Intact(states[n]) {
      IntactMeansNone(states, steps, n);
    }
    if NoneOverwritten(states[n]) {
      NoneMeansIntact(states, steps, n);
    }
  }

  lemma IntactMeansNone(states: seq<State>, steps: seq<Step>, n: nat)
    requires IsRun(states, steps) && n < |states| && AllIsolated(states, steps)
    requires Intact(states[n]) && UploadsFit(states[n])
    ensures NoneOverwritten(states[n])
  {
    var s := states[n];
    forall k | 0 <= k < |s.log| ensures !Overwritten(s, k) {
      ListedInRun(states, steps, n, s.log[k].packId, s.log[k].version);
      RegisteredFileIsIntact(states, steps, n, k);
    }
  }

  lemma NoneMeansIntact(states: seq<State>, steps: seq<Step>, n: nat)
    requires IsRun(states, steps) && n < |states| && AllIsolated(states, steps)
    requires Intact(states[0]) && NoneOverwritten(states[n])
    ensures Intact(states[n])
  {
    var s := states[n];
    forall id, v | IsListed(Parse(s.blob).packs, id, v)
      ensures FileAt(s.files, (id, v.version)) == Some(v.integrity)
    {
      ListedInRun(states, steps, n, id, v);
      if IsListed(Parse(states[0].blob).packs, id, v) {
        StartFileStays(states, steps, n, id, v);
      } else {
        var k :| 0 <= k < |s.log| && s.log[k].packId == id && s.log[k].version == v;
        RegisteredFileIsIntact(states, steps, n, k);
      }
    }
  }

  /** A published version's file can hold another call's bytes, although every put is isolated. */
  lemma OverwriteIsReachable(r0: Request, r1: Request)
    requires KeyOf(r0) == KeyOf(r1) && r0.version.integrity != r1.version.integrity
    ensures exists s :: Reachable(s, true) && 0 in s.calls && s.calls[0].request == r0
              && s.calls[0].phase == Done(Published) && !Intact(s)
  {
    FirstPublishes(r0, r1);
    var s, u := Second(r0, r1, Loading(0)), UpsertOf(r0, "");
    FindAfterApply([], u, u.packId);
    assert u.version in Updated(None, u).versions;
    assert IsListed(Parse(s.blob).packs, r0.packId, r0.version);
    LastOfBoth(r0, r1);
  }

  lemma LastOfBoth(r0: Request, r1: Request)
    requires KeyOf(r0) == KeyOf(r1)
    ensures FileAt(FilesOf(Both(r0, r1)), KeyOf(r0)) == Some(r1.version.integrity)
  {
    assert Both(r0, r1)[|Both(r0, r1)| - 1] == UploadFor(r1);
  }
}
