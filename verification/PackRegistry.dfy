/**
 * The registry index and what one upsert does to it.
 *
 * Both stores and the concurrent protocol are written over these values. The main facts are about
 * folding a whole log of upserts over an index: looking a pack up afterwards, what is kept, and how
 * many versions there are.
 */
module PackRegistry {
  import opened Text

  /** How often a publish tries its upsert before it gives up. */
  const CONCURRENCY_MAX_RETRIES := 3

  datatype PackVersion = PackVersion(
    version: string, integrity: string, publishedAt: string, publishedBy: string, blobUrl: string,
    manifest: Option<seq<int>>)  // the manifest bytes the stored summary is derived from

  datatype Entry = Entry(
    id: string, description: string, owner: string, latestVersion: string,
    versions: seq<PackVersion>, createdAt: string, updatedAt: string)

  datatype Index = Index(indexVersion: nat, packs: seq<Entry>)

  /** The JSON text of the index; an index written by an older release may lack either field. */
  datatype StoredIndex = StoredIndex(indexVersion: Option<nat>, packs: Option<seq<Entry>>)

  /** The arguments of one `upsertPackVersion` call with the clock reading it takes. */
  datatype Upsert = Upsert(packId: string, description: string, version: PackVersion, owner: string, now: string)

  /** What `loadIndex` makes of the blob. */
  function Parse(blob: Option<StoredIndex>): Index {
    match blob
    case None => Index(0, [])
    case Some(text) => Index(text.indexVersion.GetOr(0), text.packs.GetOr([]))
  }

  function Stored(index: Index): StoredIndex {
    StoredIndex(Some(index.indexVersion), Some(index.packs))
  }

  /** `packs.find((pack) => pack.id === id)` */
  function Find(packs: seq<Entry>, id: string): Option<Entry> {
    if packs == [] then None
    else if packs[0].id == id then Some(packs[0])
    else Find(packs[1..], id)
  }

  function Updated(existing: Option<Entry>, u: Upsert): Entry {
    match existing
    case Some(pack) =>
      pack.(description := u.description, latestVersion := u.version.version,
           versions := pack.versions + [u.version], updatedAt := u.now)
    case None =>
      Entry(u.packId, u.description, u.owner, u.version.version, [u.version], u.now, u.now)
  }

  /** `packs.map((pack) => (pack.id === id ? replacement : pack))` */
  function ReplaceById(packs: seq<Entry>, id: string, replacement: Entry): seq<Entry> {
    if packs == [] then []
    else [if packs[0].id == id then replacement else packs[0]] + ReplaceById(packs[1..], id, replacement)
  }

  function Apply(packs: seq<Entry>, u: Upsert): seq<Entry> {
    var existing := Find(packs, u.packId);
    if existing.Some?
    then ReplaceById(packs, u.packId, Updated(existing, u))
    else packs + [Updated(existing, u)]
  }

  predicate Lists(pack: Entry, version: string) {
    exists v :: v in pack.versions && v.version == version
  }

  datatype Refusal = NotOwner | DuplicateVersion

  /** The ownership and immutability checks a publish makes before uploading anything. */
  function Screen(packs: seq<Entry>, packId: string, version: string, publisher: string): Option<Refusal> {
    match Find(packs, packId)
    case None => None
    case Some(pack) =>
      if pack.owner != publisher then Some(NotOwner)
      else if Lists(pack, version) then Some(DuplicateVersion)
      else None
  }

  /** A log of upserts applied one after another. */
  function Replay(packs: seq<Entry>, log: seq<Upsert>): seq<Entry> {
    if log == [] then packs
    else Apply(Replay(packs, log[..|log| - 1]), log[|log| - 1])
  }

  predicate DistinctIds(packs: seq<Entry>) {
    forall i, j :: 0 <= i < j < |packs| ==> packs[i].id != packs[j].id
  }

  function TotalVersions(packs: seq<Entry>): nat {
    if packs == [] then 0 else |packs[0].versions| + TotalVersions(packs[1..])
  }

  /** The entry at `i` is the first with this id. */
  predicate IsFirst(packs: seq<Entry>, id: string, i: int) {
    0 <= i < |packs| && packs[i].id == id && forall k :: 0 <= k < i ==> packs[k].id != id
  }

  lemma {:induction false} FindMeans(packs: seq<Entry>, id: string)
    ensures Find(packs, id).None? ==> forall i :: 0 <= i < |packs| ==> packs[i].id != id
    ensures Find(packs, id).Some? ==> Find(packs, id).value.id == id && Find(packs, id).value in packs
    ensures Find(packs, id).Some? ==> exists i :: IsFirst(packs, id, i) && Find(packs, id).value == packs[i]
  {
    if packs != [] && packs[0].id != id {
      FindMeans(packs[1..], id);
      if Find(packs, id).Some? {
        var i :| IsFirst(packs[1..], id, i) && Find(packs, id).value == packs[1..][i];
        assert forall k :: 0 < k < i + 1 ==> packs[k] == packs[1..][k - 1];
        assert IsFirst(packs, id, i + 1);
      }
    } else if packs != [] {
      assert IsFirst(packs, id, 0);
    }
  }

  lemma {:induction false} FindAfterReplace(packs: seq<Entry>, id: string, replacement: Entry, q: string)
    requires replacement.id == id
    ensures |ReplaceById(packs, id, replacement)| == |packs|
    ensures Find(ReplaceById(packs, id, replacement), q) ==
            if q == id && Find(packs, q).Some? then Some(replacement) else Find(packs, q)
  {
    if packs != [] {
      FindAfterReplace(packs[1..], id, replacement, q);
      assert ReplaceById(packs, id, replacement)[1..] == ReplaceById(packs[1..], id, replacement);
    }
  }

  lemma {:induction false} FindAfterAppend(packs: seq<Entry>, e: Entry, q: string)
    ensures Find(packs + [e], q) ==
            if Find(packs, q).Some? then Find(packs, q) else if e.id == q then Some(e) else None
  {
    if packs == [] {
      assert packs + [e] == [e];
    } else {
      assert (packs + [e])[1..] == packs[1..] + [e];
      FindAfterAppend(packs[1..], e, q);
    }
  }

  /** An upsert changes the lookup of its own pack and of no other. */
  lemma FindAfterApply(packs: seq<Entry>, u: Upsert, q: string)
    ensures Find(Apply(packs, u), q) ==
            if q == u.packId then Some(Updated(Find(packs, u.packId), u)) else Find(packs, q)
  {
    var existing := Find(packs, u.packId);
    FindMeans(packs, u.packId);
    if existing.Some? {
      FindAfterReplace(packs, u.packId, Updated(existing, u), q);
    } else {
      FindAfterAppend(packs, Updated(existing, u), q);
    }
  }

  lemma {:induction false} ReplaceAt(packs: seq<Entry>, id: string, replacement: Entry)
    ensures |ReplaceById(packs, id, replacement)| == |packs|
    ensures forall i :: 0 <= i < |packs| ==>
              ReplaceById(packs, id, replacement)[i] == if packs[i].id == id then replacement else packs[i]
  {
    if packs != [] {
      ReplaceAt(packs[1..], id, replacement);
    }
  }

  lemma ApplyKeepsIdsDistinct(packs: seq<Entry>, u: Upsert)
    requires DistinctIds(packs)
    ensures DistinctIds(Apply(packs, u))
  {
    FindMeans(packs, u.packId);
    if Find(packs, u.packId).Some? {
      ReplaceAt(packs, u.packId, Updated(Find(packs, u.packId), u));
    }
  }

  lemma {:induction false} TotalAfterReplace(packs: seq<Entry>, id: string, replacement: Entry)
    requires DistinctIds(packs) && Find(packs, id).Some?
    ensures TotalVersions(ReplaceById(packs, id, replacement)) ==
            TotalVersions(packs) - |Find(packs, id).value.versions| + |replacement.versions|
  {
    var tail := packs[1..];
    assert ReplaceById(packs, id, replacement)[1..] == ReplaceById(tail, id, replacement);
    if packs[0].id == id {
      forall i | 0 <= i < |tail| ensures tail[i].id != id {
        assert tail[i] == packs[i + 1];
      }
      ReplaceAbsent(tail, id, replacement);
    } else {
      TotalAfterReplace(tail, id, replacement);
    }
  }

  lemma {:induction false} ReplaceAbsent(packs: seq<Entry>, id: string, replacement: Entry)
    requires forall i :: 0 <= i < |packs| ==> packs[i].id != id
    ensures ReplaceById(packs, id, replacement) == packs
  {
    if packs != [] {
      ReplaceAbsent(packs[1..], id, replacement);
    }
  }

  lemma {:induction false} TotalAfterAppend(packs: seq<Entry>, e: Entry)
    ensures TotalVersions(packs + [e]) == TotalVersions(packs) + |e.versions|
  {
    if packs == [] {
      assert packs + [e] == [e];
    } else {
      assert (packs + [e])[1..] == packs[1..] + [e];
      TotalAfterAppend(packs[1..], e);
    }
  }

  /** One upsert adds exactly one version to the registry. */
  lemma ApplyAddsOneVersion(packs: seq<Entry>, u: Upsert)
    requires DistinctIds(packs)
    ensures TotalVersions(Apply(packs, u)) == TotalVersions(packs) + 1
  {
    var existing := Find(packs, u.packId);
    if existing.Some? {
      TotalAfterReplace(packs, u.packId, Updated(existing, u));
    } else {
      TotalAfterAppend(packs, Updated(existing, u));
    }
  }

  lemma {:induction false} ReplayCounts(packs: seq<Entry>, log: seq<Upsert>)
    requires DistinctIds(packs)
    ensures DistinctIds(Replay(packs, log))
    ensures TotalVersions(Replay(packs, log)) == TotalVersions(packs) + |log|
  {
    if log != [] {
      var before := log[..|log| - 1];
      ReplayCounts(packs, before);
      ApplyKeepsIdsDistinct(Replay(packs, before), log[|log| - 1]);
      ApplyAddsOneVersion(Replay(packs, before), log[|log| - 1]);
    }
  }

  /** `later` still has this pack: same owner and birth, and at least these versions in this order. */
  predicate Extends(later: Option<Entry>, earlier: Entry) {
    && later.Some?
    && later.value.id == earlier.id
    && later.value.owner == earlier.owner
    && later.value.createdAt == earlier.createdAt
    && earlier.versions <= later.value.versions
  }

  /** Nothing that was in the registry at one moment is missing or reordered at a later one. */
  lemma {:induction false} ReplayOnlyExtends(packs: seq<Entry>, log: seq<Upsert>, i: nat, id: string)
    requires i <= |log|
    requires Find(Replay(packs, log[..i]), id).Some?
    ensures Extends(Find(Replay(packs, log), id), Find(Replay(packs, log[..i]), id).value)
  {
    if i == |log| {
      assert log[..i] == log;
    } else {
      var before := log[..|log| - 1];
      assert before[..i] == log[..i];
      ReplayOnlyExtends(packs, before, i, id);
      FindAfterApply(Replay(packs, before), log[|log| - 1], id);
    }
  }

  /** Every logged upsert is still there: its pack exists and lists its version. */
  lemma {:induction false} ReplayKeepsEveryVersion(packs: seq<Entry>, log: seq<Upsert>, k: nat)
    requires k < |log|
    ensures var e := Find(Replay(packs, log), log[k].packId);
            e.Some? && log[k].version in e.value.versions
  {
    var at := Replay(packs, log[..k + 1]);
    assert log[..k + 1][..k] == log[..k];
    FindAfterApply(Replay(packs, log[..k]), log[k], log[k].packId);
    var e := Find(at, log[k].packId).value;
    assert e.versions[|e.versions| - 1] == log[k].version;
    ReplayOnlyExtends(packs, log, k + 1, log[k].packId);
    var later := Find(Replay(packs, log), log[k].packId).value;
    assert later.versions[|e.versions| - 1] == log[k].version;
  }

  predicate Taken(packs: seq<Entry>, id: string, version: string) {
    Find(packs, id).Some? && Lists(Find(packs, id).value, version)
  }

  predicate DistinctVersions(pack: Entry) {
    forall i, j :: 0 <= i < j < |pack.versions| ==> pack.versions[i].version != pack.versions[j].version
  }

  /** No pack lists one version string twice. */
  ghost predicate NoRepeats(packs: seq<Entry>) {
    forall id :: Find(packs, id).Some? ==> DistinctVersions(Find(packs, id).value)
  }

  lemma UpdatedRepeats(existing: Option<Entry>, u: Upsert)
    ensures DistinctVersions(Updated(existing, u)) <==>
            (existing.Some? ==> DistinctVersions(existing.value) && !Lists(existing.value, u.version.version))
  {
    if existing.Some? {
      var old', new' := existing.value.versions, Updated(existing, u).versions;
      assert forall i :: 0 <= i < |old'| ==> new'[i] == old'[i];
      assert new'[|old'|] == u.version;
      if Lists(existing.value, u.version.version) {
        var i :| 0 <= i < |old'| && old'[i].version == u.version.version;
        assert new'[i].version == new'[|old'|].version;
      }
    }
  }

  /** An upsert brings in a repeated version string exactly when its pack already lists its own. */
  lemma ApplyRepeats(packs: seq<Entry>, u: Upsert)
    ensures NoRepeats(Apply(packs, u)) <==> NoRepeats(packs) && !Taken(packs, u.packId, u.version.version)
  {
    var existing := Find(packs, u.packId);
    UpdatedRepeats(existing, u);
    FindAfterApply(packs, u, u.packId);
    forall id ensures id != u.packId ==> Find(Apply(packs, u), id) == Find(packs, id) {
      FindAfterApply(packs, u, id);
    }
    if NoRepeats(Apply(packs, u)) {
      assert DistinctVersions(Updated(existing, u));
      forall id | Find(packs, id).Some? ensures DistinctVersions(Find(packs, id).value) {
        assert Find(Apply(packs, u), id).Some?;
      }
    }
  }

  lemma TakenAfterApply(packs: seq<Entry>, u: Upsert, id: string, version: string)
    ensures Taken(Apply(packs, u), id, version) <==>
            Taken(packs, id, version) || (u.packId == id && u.version.version == version)
  {
    FindAfterApply(packs, u, id);
    if id == u.packId {
      var existing := Find(packs, id);
      var versions := Updated(existing, u).versions;
      assert versions[|versions| - 1] == u.version;
      if existing.Some? {
        assert forall v :: v in versions <==> v in existing.value.versions || v == u.version;
      }
    }
  }

  /** A version string is taken now exactly if it was at an earlier point of the log or has come in since. */
  lemma {:induction false} TakenSince(packs: seq<Entry>, log: seq<Upsert>, at: nat, id: string, version: string)
    requires at <= |log|
    ensures Taken(Replay(packs, log), id, version) <==>
            Taken(Replay(packs, log[..at]), id, version) || ComesIn(log, at, id, version)
    decreases |log|
  {
    if at == |log| {
      assert log[..at] == log;
    } else {
      var before, u := log[..|log| - 1], log[|log| - 1];
      assert before[..at] == log[..at];
      TakenSince(packs, before, at, id, version);
      TakenAfterApply(Replay(packs, before), u, id, version);
      ComesInOneMore(log, at, id, version);
    }
  }

  /** Some upsert from `at` on brings this version string to this pack. */
  predicate ComesIn(log: seq<Upsert>, at: nat, id: string, version: string) {
    exists k :: at <= k < |log| && log[k].packId == id && log[k].version.version == version
  }

  lemma ComesInOneMore(log: seq<Upsert>, at: nat, id: string, version: string)
    requires at < |log|
    ensures ComesIn(log, at, id, version) <==>
            || ComesIn(log[..|log| - 1], at, id, version)
            || (log[|log| - 1].packId == id && log[|log| - 1].version.version == version)
  {
    var before := log[..|log| - 1];
    if ComesIn(before, at, id, version) {
      var k :| at <= k < |before| && before[k].packId == id && before[k].version.version == version;
      assert log[k] == before[k];
    }
    if ComesIn(log, at, id, version) {
      var k :| at <= k < |log| && log[k].packId == id && log[k].version.version == version;
      assert k < |before| ==> before[k] == log[k];
    }
  }

  /** Every version a pack lists was published by the pack's owner. */
  predicate OwnerPublishes(pack: Entry) {
    forall i :: 0 <= i < |pack.versions| ==> pack.versions[i].publishedBy == pack.owner
  }

  ghost predicate OwnersPublish(packs: seq<Entry>) {
    forall id :: Find(packs, id).Some? ==> OwnerPublishes(Find(packs, id).value)
  }

  lemma UpdatedOwner(existing: Option<Entry>, u: Upsert)
    requires u.owner == u.version.publishedBy
    ensures OwnerPublishes(Updated(existing, u)) <==>
            (existing.Some? ==> OwnerPublishes(existing.value) && existing.value.owner == u.owner)
  {
    if existing.Some? {
      var before, after := existing.value.versions, Updated(existing, u).versions;
      assert forall i :: 0 <= i < |before| ==> after[i] == before[i];
      assert after[|before|] == u.version;
    }
  }

  /** An upsert breaks ownership exactly when it lands on a pack that someone else owns. */
  lemma ApplyOwners(packs: seq<Entry>, u: Upsert)
    requires u.owner == u.version.publishedBy
    ensures OwnersPublish(Apply(packs, u)) <==>
            OwnersPublish(packs) && (Find(packs, u.packId).Some? ==> Find(packs, u.packId).value.owner == u.owner)
  {
    UpdatedOwner(Find(packs, u.packId), u);
    FindAfterApply(packs, u, u.packId);
    forall id ensures id != u.packId ==> Find(Apply(packs, u), id) == Find(packs, id) {
      FindAfterApply(packs, u, id);
    }
    if OwnersPublish(Apply(packs, u)) {
      assert OwnerPublishes(Updated(Find(packs, u.packId), u));
      forall id | Find(packs, id).Some? ensures OwnerPublishes(Find(packs, id).value) {
        assert Find(Apply(packs, u), id).Some?;
      }
    }
  }

  /** The upsert at `k` creates its pack. */
  predicate Creates(packs: seq<Entry>, log: seq<Upsert>, k: nat)
    requires k < |log|
  {
    Find(Replay(packs, log[..k]), log[k].packId).None?
  }

  /** A pack absent at an earlier point of the log is owned by whoever created it since. */
  lemma {:induction false} FounderOwns(packs: seq<Entry>, log: seq<Upsert>, at: nat, id: string) returns (k: nat)
    requires at <= |log| && Find(Replay(packs, log[..at]), id).None? && Find(Replay(packs, log), id).Some?
    ensures at <= k < |log| && log[k].packId == id && Creates(packs, log, k)
    ensures Find(Replay(packs, log), id).value.owner == log[k].owner
    decreases |log|
  {
    assert log[..|log|] == log;
    if at == |log| {
      assert false;
    }
    var before, u := log[..|log| - 1], log[|log| - 1];
    assert before[..at] == log[..at];
    FindAfterApply(Replay(packs, before), u, id);
    if Find(Replay(packs, before), id).None? {
      k := |before|;
    } else {
      k := FounderOwns(packs, before, at, id);
      assert log[k] == before[k] && log[..k] == before[..k];
    }
  }

  /** And a creator owns the pack from then on. */
  lemma CreatorOwns(packs: seq<Entry>, log: seq<Upsert>, k: nat)
    requires k < |log| && Creates(packs, log, k)
    ensures var pack := Find(Replay(packs, log), log[k].packId); pack.Some? && pack.value.owner == log[k].owner
  {
    assert log[..k + 1][..k] == log[..k];
    FindAfterApply(Replay(packs, log[..k]), log[k], log[k].packId);
    ReplayOnlyExtends(packs, log, k + 1, log[k].packId);
  }

  /** A pack lists exactly the versions it started with and those the log brought it. */
  lemma {:induction false} ListedFrom(packs: seq<Entry>, log: seq<Upsert>, id: string, v: PackVersion)
    ensures IsListed(Replay(packs, log), id, v) <==>
            IsListed(packs, id, v) || exists k :: 0 <= k < |log| && log[k].packId == id && log[k].version == v
  {
    if log != [] {
      var before, u := log[..|log| - 1], log[|log| - 1];
      ListedFrom(packs, before, id, v);
      FindAfterApply(Replay(packs, before), u, id);
      if exists k :: 0 <= k < |before| && before[k].packId == id && before[k].version == v {
        var k :| 0 <= k < |before| && before[k].packId == id && before[k].version == v;
        assert log[k] == before[k];
      }
      if u.packId == id && u.version == v {
        assert log[|log| - 1].packId == id;
      }
    }
  }

  predicate IsListed(packs: seq<Entry>, id: string, v: PackVersion) {
    Find(packs, id).Some? && v in Find(packs, id).value.versions
  }

  // ---------------------------------------------------------------------------------------------
  // What an upsert and a log of them leave, field by field
  // ---------------------------------------------------------------------------------------------

  /** `e` is what `u` makes of the entry there was, or of none. */
  predicate EntryAfter(existing: Option<Entry>, u: Upsert, e: Entry) {
    && e.description == u.description
    && e.latestVersion == u.version.version
    && e.updatedAt == u.now
    && (existing.Some? ==>
          && e.id == existing.value.id && e.owner == existing.value.owner && e.createdAt == existing.value.createdAt
          && e.versions == existing.value.versions + [u.version])
    && (existing.None? ==>
          e.id == u.packId && e.owner == u.owner && e.createdAt == u.now && e.versions == [u.version])
  }

  lemma UpsertLeaves(packs: seq<Entry>, u: Upsert)
    ensures Find(Apply(packs, u), u.packId).Some?
    ensures EntryAfter(Find(packs, u.packId), u, Find(Apply(packs, u), u.packId).value)
  {
    FindAfterApply(packs, u, u.packId);
  }

  /** Packs keep their places and their contents but for the one upserted; a new one comes last. */
  lemma ApplyKeepsOrder(packs: seq<Entry>, u: Upsert)
    ensures var after := Apply(packs, u);
            && |after| == |packs| + (if exists i :: 0 <= i < |packs| && packs[i].id == u.packId then 0 else 1)
            && (forall i :: 0 <= i < |packs| && packs[i].id != u.packId ==> after[i] == packs[i])
            && (forall i :: 0 <= i < |after| && (i < |packs| ==> packs[i].id == u.packId) ==>
                  EntryAfter(Find(packs, u.packId), u, after[i]))
  {
    FindMeans(packs, u.packId);
    if Find(packs, u.packId).Some? {
      ReplaceAt(packs, u.packId, Updated(Find(packs, u.packId), u));
    }
  }

  /** No upsert of the log from `from` on is to this pack. */
  predicate LeavesAlone(log: seq<Upsert>, from: nat, id: string) {
    forall j :: from <= j < |log| ==> log[j].packId != id
  }

  /** What no upsert of a log touches stays as it was. */
  lemma {:induction false} UntouchedStays(packs: seq<Entry>, log: seq<Upsert>, from: nat, id: string)
    requires from <= |log| && LeavesAlone(log, from, id)
    ensures Find(Replay(packs, log), id) == Find(Replay(packs, log[..from]), id)
    decreases |log|
  {
    if from == |log| {
      assert log[..from] == log;
    } else {
      var before := log[..|log| - 1];
      assert before[..from] == log[..from];
      UntouchedStays(packs, before, from, id);
      FindAfterApply(Replay(packs, before), log[|log| - 1], id);
    }
  }

  /** A pack has the description, latest version and time of the last upsert to it. */
  lemma LastUpsertShows(packs: seq<Entry>, log: seq<Upsert>, k: nat)
    requires k < |log| && LeavesAlone(log, k + 1, log[k].packId)
    ensures var e := Find(Replay(packs, log), log[k].packId);
            && e.Some? && e.value.description == log[k].description && e.value.updatedAt == log[k].now
            && e.value.latestVersion == log[k].version.version
  {
    UntouchedStays(packs, log, k + 1, log[k].packId);
    assert log[..k + 1][..k] == log[..k];
    UpsertLeaves(Replay(packs, log[..k]), log[k]);
  }

  /** A pack that a log creates has the owner and the birth of the first upsert to it. */
  lemma FirstUpsertCreates(packs: seq<Entry>, log: seq<Upsert>, k: nat)
    requires k < |log| && LeavesAlone(log[..k], 0, log[k].packId) && Find(packs, log[k].packId).None?
    ensures var e := Find(Replay(packs, log), log[k].packId);
            && e.Some? && e.value.id == log[k].packId && e.value.owner == log[k].owner
            && e.value.createdAt == log[k].now
  {
    UntouchedStays(packs, log[..k], 0, log[k].packId);
    assert log[..k][..0] == [] && log[..k + 1][..k] == log[..k];
    UpsertLeaves(Replay(packs, log[..k]), log[k]);
    ReplayOnlyExtends(packs, log, k + 1, log[k].packId);
  }

  /** A pack there from the start keeps its id, owner and birth. */
  lemma StartStays(packs: seq<Entry>, log: seq<Upsert>, id: string)
    requires Find(packs, id).Some?
    ensures var e, start := Find(Replay(packs, log), id), Find(packs, id).value;
            e.Some? && e.value.id == start.id && e.value.owner == start.owner && e.value.createdAt == start.createdAt
  {
    assert log[..0] == [];
    ReplayOnlyExtends(packs, log, 0, id);
  }

  /** The versions that a log brings to a pack, in log order. */
  function VersionsTo(log: seq<Upsert>, id: string): seq<PackVersion> {
    if log == [] then []
    else
      var u := log[|log| - 1];
      var before := VersionsTo(log[..|log| - 1], id);
      if u.packId == id then before + [u.version] else before
  }

  function VersionsOf(pack: Option<Entry>): seq<PackVersion> {
    if pack.Some? then pack.value.versions else []
  }

  /** A pack lists the versions it started with and then those the log brought it, in log order. */
  lemma {:induction false} VersionsAddUp(packs: seq<Entry>, log: seq<Upsert>, id: string)
    ensures VersionsOf(Find(Replay(packs, log), id)) == VersionsOf(Find(packs, id)) + VersionsTo(log, id)
  {
    if log != [] {
      var before, u := log[..|log| - 1], log[|log| - 1];
      VersionsAddUp(packs, before, id);
      if u.packId == id {
        UpsertLeaves(Replay(packs, before), u);
      } else {
        FindAfterApply(Replay(packs, before), u, id);
      }
    }
  }

  /** The first pack of this id is someone else's. */
  ghost predicate OwnedByOther(packs: seq<Entry>, id: string, publisher: string) {
    exists i :: IsFirst(packs, id, i) && packs[i].owner != publisher
  }

  /** The first pack of this id already has a version of this string. */
  ghost predicate AlreadyListed(packs: seq<Entry>, id: string, version: string) {
    exists i, k :: IsFirst(packs, id, i) && 0 <= k < |packs[i].versions| && packs[i].versions[k].version == version
  }

  /** A publish is refused for its owner first, then for its version, and else let through. */
  lemma ScreenMeans(packs: seq<Entry>, packId: string, version: string, publisher: string)
    ensures Screen(packs, packId, version, publisher) == Some(NotOwner) <==> OwnedByOther(packs, packId, publisher)
    ensures Screen(packs, packId, version, publisher) == Some(DuplicateVersion) <==>
            !OwnedByOther(packs, packId, publisher) && AlreadyListed(packs, packId, version)
    ensures Screen(packs, packId, version, publisher) == None <==>
            !OwnedByOther(packs, packId, publisher) && !AlreadyListed(packs, packId, version)
  {
    FindMeans(packs, packId);
    if Find(packs, packId).Some? {
      var i :| IsFirst(packs, packId, i) && Find(packs, packId).value == packs[i];
      FirstIsUnique(packs, packId, i);
      if Lists(packs[i], version) {
        var v :| v in packs[i].versions && v.version == version;
        var k :| 0 <= k < |packs[i].versions| && packs[i].versions[k] == v;
      }
    }
  }

  lemma FirstIsUnique(packs: seq<Entry>, id: string, i: int)
    requires IsFirst(packs, id, i)
    ensures forall k :: IsFirst(packs, id, k) ==> k == i
  {
  }
}
