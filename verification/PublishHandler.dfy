/**
 * The publish handler: rate limit, size limit, lookup, screening, upload, then the retry loop.
 *
 * The handler is proved against whatever other writers leave in the registry blob between its reads.
 * With nobody else writing it is the function `Publish`, and what any sequence of such publishes keeps
 * is proved about that function.
 */
module PublishHandler {
  import opened Text
  import opened PackRegistry
  import opened RegistryStores
  import RateLimiter
  import TarArchive

  const TARBALL_MAX_SIZE := 50 * 1024 * 1024
  const SHA256_PREFIX := "sha256:"

  type Data = seq<TarArchive.byte>

  /** A byte array is a view of a stretch of its buffer. */
  datatype View = View(buffer: Data, offset: nat, length: nat) {
    predicate Valid() {
      offset + length <= |buffer|
    }

    function Bytes(): Data
      requires Valid()
    {
      buffer[offset..offset + length]
    }

    predicate CoversBuffer() {
      offset == 0 && length == |buffer|
    }
  }

  type Tarball = view: View | view.Valid() witness View([], 0, 0)

  datatype Request = Request(packId: string, version: string, description: string, tarball: Tarball, publisher: string)

  datatype Response =
    | Published(version: PackVersion)
    | RateLimited
    | TooLarge
    | Refused(why: Refusal)
    | ConflictsExhausted
    | Failed
    | LookupThrew  // the error of the lookup leaves the handler

  /** Library functions the handler calls: the SHA-256 text, gunzip, and the URL a blob path gets. */
  datatype Platform = Platform(hash: Data -> string, gunzip: Data -> Option<Data>, urlOf: string -> string)

  datatype UploadFate = Stores | ThrowsFirst | StoresAndThrows

  /** What a call meets: its clock readings, and which of its requests throw. */
  datatype Occasion = Occasion(
    millis: int, publishedAt: string, updatedAt: nat -> string,
    lookupThrows: bool, upload: UploadFate, upserts: nat -> Fate)

  function Key(packId: string, version: string): string {
    "packs/" + packId + "/" + version + ".tgz"
  }

  class BlobStore {
    var files: map<string, Data>

    constructor ()
      ensures files == map[]
    {
      files := map[];
    }

    /** Stores the bytes of the view; the integrity is taken over the view's whole buffer. */
    method Upload(packId: string, version: string, data: Tarball, platform: Platform, fate: UploadFate)
      returns (r: Option<(string, string)>)
      modifies this
      ensures files == if fate.ThrowsFirst? then old(files) else old(files)[Key(packId, version) := data.Bytes()]
      ensures r == if fate.Stores?
                   then Some((platform.urlOf(Key(packId, version)), "sha256:" + platform.hash(data.buffer)))
                   else None
      ensures Key(packId, version) == "packs/" + packId + "/" + version + ".tgz"
    {
      var path := "packs/" + packId + "/" + version + ".tgz";
      if fate.ThrowsFirst? {
        return None;
      }
      files := files[path := data.Bytes()];
      if fate.StoresAndThrows? {
        return None;
      }
      return Some((platform.urlOf(path), SHA256_PREFIX + platform.hash(data.buffer)));
    }
  }

  function Manifest(tarball: Data, platform: Platform): Option<Data> {
    TarArchive.ManifestIn(TarArchive.DecodeTarPayload(tarball, platform.gunzip))
  }

  function NewVersion(r: Request, o: Occasion, platform: Platform): PackVersion {
    PackVersion(r.version, SHA256_PREFIX + platform.hash(r.tarball.buffer), o.publishedAt, r.publisher,
                platform.urlOf(Key(r.packId, r.version)), Manifest(r.tarball.Bytes(), platform))
  }

  function UpsertAt(r: Request, o: Occasion, platform: Platform, attempt: nat): Upsert {
    Upsert(r.packId, r.description, NewVersion(r, o, platform), r.publisher, o.updatedAt(attempt))
  }

  // ---------------------------------------------------------------------------------------------
  // The retry loop
  // ---------------------------------------------------------------------------------------------

  /** Attempt k loads the index with read 2k+1 and re-reads it with read 2k+2; read 0 is the lookup. */
  predicate Quiet(blob: Option<StoredIndex>, arriving: seq<Option<StoredIndex>>, attempt: nat) {
    IndexAtRead(blob, arriving, 2 * attempt + 2).indexVersion
    == IndexAtRead(blob, arriving, 2 * attempt + 1).indexVersion
  }

  /** The attempt meets a conflict, which is the one thing that makes the loop go on. */
  predicate Conflicts(blob: Option<StoredIndex>, arriving: seq<Option<StoredIndex>>, fates: nat -> Fate, attempt: nat) {
    !fates(attempt).LoadThrows? && !fates(attempt).CheckThrows? && !Quiet(blob, arriving, attempt)
  }

  /** The first attempt, from `attempt` on, that meets no conflict, or the retry limit. */
  function LastAttempt(blob: Option<StoredIndex>, arriving: seq<Option<StoredIndex>>, fates: nat -> Fate, attempt: nat)
    : (k: nat)
    ensures attempt <= 3 ==> attempt <= k <= 3
    ensures k < 3 ==> !Conflicts(blob, arriving, fates, k)
    ensures forall j :: attempt <= j < k ==> Conflicts(blob, arriving, fates, j)
    decreases CONCURRENCY_MAX_RETRIES - attempt
  {
    if attempt >= CONCURRENCY_MAX_RETRIES then CONCURRENCY_MAX_RETRIES
    else if !Conflicts(blob, arriving, fates, attempt) then attempt
    else LastAttempt(blob, arriving, fates, attempt + 1)
  }

  /** What attempt `k` reads before it computes its index. */
  function Base(blob: Option<StoredIndex>, arriving: seq<Option<StoredIndex>>, attempt: nat): Index {
    IndexAtRead(blob, arriving, 2 * attempt + 1)
  }

  predicate Committed(index: Index, r: Request, o: Occasion, platform: Platform,
                      blob: Option<StoredIndex>, arriving: seq<Option<StoredIndex>>, attempt: nat)
  {
    var base := Base(blob, arriving, attempt);
    index == Index(base.indexVersion + 1, Apply(base.packs, UpsertAt(r, o, platform, attempt)))
  }

  /** The call's last attempt puts its index, whether or not the call is told so. */
  predicate Registers(o: Occasion, blob: Option<StoredIndex>, arriving: seq<Option<StoredIndex>>) {
    var k := LastAttempt(blob, arriving, o.upserts, 0);
    k < 3 && Lands(o.upserts(k))
  }

  predicate Answers(response: Response, r: Request, o: Occasion, platform: Platform,
                    blob: Option<StoredIndex>, arriving: seq<Option<StoredIndex>>)
  {
    var k := LastAttempt(blob, arriving, o.upserts, 0);
    response == if k == 3 then ConflictsExhausted
                else if o.upserts(k).Completes? then Published(NewVersion(r, o, platform))
                else Failed
  }

  /** How many reads a call makes when it puts nothing. */
  function ReadsMade(o: Occasion, blob: Option<StoredIndex>, arriving: seq<Option<StoredIndex>>): nat {
    var k := LastAttempt(blob, arriving, o.upserts, 0);
    2 * k + 1 + if k == 3 then 0 else UpsertReads(o.upserts(k))
  }

  lemma ReadsCompose(blob: Option<StoredIndex>, arriving: seq<Option<StoredIndex>>, n: nat)
    ensures var (b, a) := AfterReads(blob, arriving, n);
            && AfterReads(b, a, 0) == AfterReads(blob, arriving, n)
            && AfterReads(b, a, 1) == AfterReads(blob, arriving, n + 1)
            && AfterReads(b, a, 2) == AfterReads(blob, arriving, n + 2)
            && IndexAtRead(b, a, 0) == IndexAtRead(blob, arriving, n)
            && IndexAtRead(b, a, 1) == IndexAtRead(blob, arriving, n + 1)
  {
    var (b, a) := AfterReads(blob, arriving, n);
    assert AfterReads(b, a, 0) == (b, a);
    assert AfterReads(b, a, 1) == AfterReads(blob, arriving, n + 1);
  }

  /** One upsert of the retry loop. */
  method Attempt(r: Request, o: Occasion, platform: Platform, registry: BlobRegistryStore, attempt: nat,
                 ghost blob0: Option<StoredIndex>, ghost arriving0: seq<Option<StoredIndex>>)
    returns (saved: Result<Entry>)
    requires (registry.blob, registry.arriving) == AfterReads(blob0, arriving0, 2 * attempt + 1)
    modifies registry
    ensures var fate := o.upserts(attempt);
            && (saved.Err? && saved.error.ConcurrentModification?
                <==> Conflicts(blob0, arriving0, o.upserts, attempt))
            && (saved.Ok? <==> !Conflicts(blob0, arriving0, o.upserts, attempt) && fate.Completes?)
            && (if !Conflicts(blob0, arriving0, o.upserts, attempt) && Lands(fate)
                then Committed(Parse(registry.blob), r, o, platform, blob0, arriving0, attempt)
                     && registry.puts == old(registry.puts) + [Parse(registry.blob)]
                else (registry.blob, registry.arriving)
                       == AfterReads(blob0, arriving0, 2 * attempt + 1 + UpsertReads(fate))
                     && registry.puts == old(registry.puts))
  {
    ReadsCompose(blob0, arriving0, 2 * attempt + 1);
    saved := registry.UpsertPackVersion(UpsertAt(r, o, platform, attempt), o.upserts(attempt));
  }

  /** The retry loop, whatever other writers do: at most one put, by the first attempt without a conflict. */
  method UpsertWithRetries(r: Request, o: Occasion, platform: Platform, registry: BlobRegistryStore,
                           ghost blob0: Option<StoredIndex>, ghost arriving0: seq<Option<StoredIndex>>)
    returns (response: Response)
    requires (registry.blob, registry.arriving) == AfterReads(blob0, arriving0, 1)
    modifies registry
    ensures Answers(response, r, o, platform, blob0, arriving0)
    ensures if Registers(o, blob0, arriving0)
            then Committed(Parse(registry.blob), r, o, platform, blob0, arriving0,
                           LastAttempt(blob0, arriving0, o.upserts, 0))
                 && registry.puts == old(registry.puts) + [Parse(registry.blob)]
            else registry.blob == AfterReads(blob0, arriving0, ReadsMade(o, blob0, arriving0)).0
                 && registry.puts == old(registry.puts)
  {
    var attempt := 0;
    while attempt < CONCURRENCY_MAX_RETRIES
      invariant 0 <= attempt <= CONCURRENCY_MAX_RETRIES
      invariant (registry.blob, registry.arriving) == AfterReads(blob0, arriving0, 2 * attempt + 1)
      invariant LastAttempt(blob0, arriving0, o.upserts, attempt) == LastAttempt(blob0, arriving0, o.upserts, 0)
      invariant registry.puts == old(registry.puts)
    {
      var saved := Attempt(r, o, platform, registry, attempt, blob0, arriving0);
      match saved {
        case Ok(_) =>
          return Published(NewVersion(r, o, platform));
        case Err(error) =>
          if error.Outage? {
            return Failed;
          }
      }
      attempt := attempt + 1;
    }
    return ConflictsExhausted;
  }

  // ---------------------------------------------------------------------------------------------
  // The handler
  // ---------------------------------------------------------------------------------------------

  /** The call passes every check before its upload. */
  predicate Admitted(r: Request, o: Occasion, limits: RateLimiter.Store,
                     blob: Option<StoredIndex>, arriving: seq<Option<StoredIndex>>)
  {
    && RateLimiter.Allows(limits, r.publisher, o.millis)
    && r.tarball.length <= 52_428_800
    && !o.lookupThrows
    && Screen(IndexAtRead(blob, arriving, 0).packs, r.packId, r.version, r.publisher).None?
  }

  /** The answer and the blob a call leaves, for each way it can end. */
  predicate Settles(response: Response, after: Option<StoredIndex>, r: Request, o: Occasion, platform: Platform,
                    limits: RateLimiter.Store, blob: Option<StoredIndex>, arriving: seq<Option<StoredIndex>>)
  {
    if !RateLimiter.Allows(limits, r.publisher, o.millis) then response == RateLimited && after == blob
    else if r.tarball.length > 52_428_800 then response == TooLarge && after == blob
    else if o.lookupThrows then response == LookupThrew && after == blob
    else
      match Screen(IndexAtRead(blob, arriving, 0).packs, r.packId, r.version, r.publisher)
      case Some(why) => response == Refused(why) && after == AfterReads(blob, arriving, 1).0
      case None =>
        if !o.upload.Stores? then response == Failed && after == AfterReads(blob, arriving, 1).0
        else
          && Answers(response, r, o, platform, blob, arriving)
          && (if Registers(o, blob, arriving)
              then Committed(Parse(after), r, o, platform, blob, arriving,
                             LastAttempt(blob, arriving, o.upserts, 0))
              else after == AfterReads(blob, arriving, ReadsMade(o, blob, arriving)).0)
  }

  /** A tarball is uploaded once the screening passes, whether or not its version is then registered. */
  function FilesAfter(r: Request, o: Occasion, limits: RateLimiter.Store, blob: Option<StoredIndex>,
                      arriving: seq<Option<StoredIndex>>, files: map<string, Data>): map<string, Data>
  {
    if Admitted(r, o, limits, blob, arriving) && !o.upload.ThrowsFirst?
    then files[Key(r.packId, r.version) := r.tarball.Bytes()] else files
  }

  /** The indexes a call writes. */
  function PutsOf(r: Request, o: Occasion, limits: RateLimiter.Store, blob: Option<StoredIndex>,
                  arriving: seq<Option<StoredIndex>>, after: Option<StoredIndex>): seq<Index>
  {
    if Admitted(r, o, limits, blob, arriving) && o.upload.Stores? && Registers(o, blob, arriving)
    then [Parse(after)] else []
  }

  /**
   * A failure does not always mean that nothing was put: a `Failed` call has put iff it was admitted, its
   * upload was acknowledged, and the put of its last attempt took effect before it threw.
   */
  lemma FailedHasPutIff(response: Response, after: Option<StoredIndex>, r: Request, o: Occasion, platform: Platform,
                        limits: RateLimiter.Store, blob: Option<StoredIndex>, arriving: seq<Option<StoredIndex>>)
    requires Settles(response, after, r, o, platform, limits, blob, arriving) && response.Failed?
    ensures var k := LastAttempt(blob, arriving, o.upserts, 0);
            PutsOf(r, o, limits, blob, arriving, after) != [] <==>
            && Admitted(r, o, limits, blob, arriving) && o.upload.Stores?
            && k < 3 && o.upserts(k).PutLandsAndThrows?
  {
    if Admitted(r, o, limits, blob, arriving) && o.upload.Stores? {
      assert Answers(response, r, o, platform, blob, arriving);
    }
  }

  /** Everything a call does, whatever other writers leave between its reads and whatever throws. */
  method HandlePublishVersion(r: Request, o: Occasion, platform: Platform,
                              limiter: RateLimiter.Limiter, registry: BlobRegistryStore, blobs: BlobStore)
    returns (response: Response)
    modifies limiter, registry, blobs
    ensures limiter.store == RateLimiter.Checked(old(limiter.store), r.publisher, o.millis)
    ensures Settles(response, registry.blob, r, o, platform,
                    old(limiter.store), old(registry.blob), old(registry.arriving))
    ensures registry.puts == old(registry.puts) + PutsOf(r, o, old(limiter.store), old(registry.blob),
                                                         old(registry.arriving), registry.blob)
    ensures blobs.files == FilesAfter(r, o, old(limiter.store), old(registry.blob), old(registry.arriving),
                                      old(blobs.files))
  {
    assert registry.puts + [] == registry.puts;
    var allowed := limiter.CheckRateLimit(r.publisher, o.millis);
    if !allowed {
      return RateLimited;
    }
    if r.tarball.length > TARBALL_MAX_SIZE {
      return TooLarge;
    }
    if o.lookupThrows {
      return LookupThrew;
    }
    ghost var blob0, arriving0 := registry.blob, registry.arriving;
    ReadsCompose(blob0, arriving0, 0);
    var existing := registry.GetPackById(r.packId);
    var manifest := TarArchive.ReadManifestFromTarball(r.tarball.Bytes(), platform.gunzip);
    if existing.Some? {
      if existing.value.owner != r.publisher {
        return Refused(NotOwner);
      }
      if Lists(existing.value, r.version) {
        return Refused(DuplicateVersion);
      }
    }
    var uploaded := blobs.Upload(r.packId, r.version, r.tarball, platform, o.upload);
    if uploaded.None? {
      return Failed;
    }
    var newVersion :=
      PackVersion(r.version, uploaded.value.1, o.publishedAt, r.publisher, uploaded.value.0, manifest);
    assert newVersion == NewVersion(r, o, platform);
    response := UpsertWithRetries(r, o, platform, registry, blob0, arriving0);
  }

  // ---------------------------------------------------------------------------------------------
  // Publishes handled one at a time
  // ---------------------------------------------------------------------------------------------

  datatype World = World(index: Index, files: map<string, Data>, limits: RateLimiter.Store)

  /** What one publish makes of the world when nobody else writes. */
  function Publish(w: World, r: Request, o: Occasion, platform: Platform): (World, Response) {
    var limited := w.(limits := RateLimiter.Checked(w.limits, r.publisher, o.millis));
    if !RateLimiter.Allows(w.limits, r.publisher, o.millis) then (limited, RateLimited)
    else if r.tarball.length > TARBALL_MAX_SIZE then (limited, TooLarge)
    else if o.lookupThrows then (limited, LookupThrew)
    else match Screen(w.index.packs, r.packId, r.version, r.publisher)
      case Some(why) => (limited, Refused(why))
      case None => Register(limited, r, o, platform)
  }

  /** A publish from its upload on: the upload, then one attempt that cannot conflict. */
  function Register(w: World, r: Request, o: Occasion, platform: Platform): (World, Response) {
    var uploaded := w.(files := w.files[Key(r.packId, r.version) := r.tarball.Bytes()]);
    match o.upload
    case ThrowsFirst => (w, Failed)
    case StoresAndThrows => (uploaded, Failed)
    case Stores =>
      var put := uploaded.(index := Index(w.index.indexVersion + 1, Apply(w.index.packs, UpsertAt(r, o, platform, 0))));
      if o.upserts(0).Completes? then (put, Published(NewVersion(r, o, platform)))
      else if Lands(o.upserts(0)) then (put, Failed)
      else (uploaded, Failed)
  }

  /** Handled with nobody else writing, a publish is exactly `Publish`. */
  method PublishAlone(r: Request, o: Occasion, platform: Platform,
                      limiter: RateLimiter.Limiter, registry: BlobRegistryStore, blobs: BlobStore)
    returns (response: Response)
    requires registry.arriving == []
    modifies limiter, registry, blobs
    ensures (World(Parse(registry.blob), blobs.files, limiter.store), response)
         == Publish(old(World(Parse(registry.blob), blobs.files, limiter.store)), r, o, platform)
  {
    response := HandlePublishVersion(r, o, platform, limiter, registry, blobs);
    AloneIsPublish(response, registry.blob, r, o, platform, old(limiter.store), old(registry.blob), old(blobs.files));
  }

  lemma AloneIsQuiet(blob: Option<StoredIndex>, o: Occasion)
    ensures LastAttempt(blob, [], o.upserts, 0) == 0
    ensures IndexAtRead(blob, [], 0) == Base(blob, [], 0) == Parse(blob)
    ensures AfterReads(blob, [], 1).0 == AfterReads(blob, [], ReadsMade(o, blob, [])).0 == blob
  {
    NobodyArriving(blob, 1);
    NobodyArriving(blob, 2);
    NobodyArriving(blob, 3);
    assert Quiet(blob, [], 0);
  }

  lemma AloneIsPublish(response: Response, after: Option<StoredIndex>, r: Request, o: Occasion, platform: Platform,
                       limits: RateLimiter.Store, blob: Option<StoredIndex>, files: map<string, Data>)
    requires Settles(response, after, r, o, platform, limits, blob, [])
    ensures (World(Parse(after), FilesAfter(r, o, limits, blob, [], files),
                   RateLimiter.Checked(limits, r.publisher, o.millis)), response)
         == Publish(World(Parse(blob), files, limits), r, o, platform)
  {
    AloneIsQuiet(blob, o);
  }

  function After(history: seq<(Request, Occasion)>, platform: Platform): World {
    if history == [] then World(Index(0, []), map[], map[])
    else
      var (r, o) := history[|history| - 1];
      Publish(After(history[..|history| - 1], platform), r, o, platform).0
  }

  /** The routes validate pack ids as [a-z0-9-] and pass an array that covers its buffer. */
  predicate AsRouted(r: Request) {
    '/' !in r.packId && r.tarball.CoversBuffer()
  }

  predicate AllRouted(history: seq<(Request, Occasion)>) {
    forall i :: 0 <= i < |history| ==> AsRouted(history[i].0)
  }

  ghost predicate GoodVersion(id: string, owner: string, v: PackVersion, files: map<string, Data>, platform: Platform) {
    && v.publishedBy == owner
    && Key(id, v.version) in files
    && v.integrity == "sha256:" + platform.hash(files[Key(id, v.version)])
    && v.manifest == Manifest(files[Key(id, v.version)], platform)
  }

  ghost predicate GoodPack(e: Entry, files: map<string, Data>, platform: Platform) {
    && e.versions != []
    && e.latestVersion == e.versions[|e.versions| - 1].version
    && '/' !in e.id
    && (forall i :: 0 <= i < |e.versions| ==> GoodVersion(e.id, e.owner, e.versions[i], files, platform))
    && (forall i, j :: 0 <= i < j < |e.versions| ==> e.versions[i].version != e.versions[j].version)
  }

  ghost predicate GoodWorld(w: World, platform: Platform) {
    && DistinctIds(w.index.packs)
    && forall id :: Find(w.index.packs, id).Some? ==> GoodPack(Find(w.index.packs, id).value, w.files, platform)
  }

  lemma {:induction false} SlashSplits(a: string, b: string, x: string, y: string)
    requires '/' !in a && '/' !in b && a + "/" + x == b + "/" + y
    ensures a == b && x == y
  {
    if a == "" || b == "" {
      assert (a + "/" + x)[0] == (b + "/" + y)[0];
      assert a == b == "";
      assert (a + "/" + x)[1..] == x && (b + "/" + y)[1..] == y;
    } else {
      assert (a + "/" + x)[0] == a[0] && (b + "/" + y)[0] == b[0];
      assert (a + "/" + x)[1..] == a[1..] + "/" + x;
      assert (b + "/" + y)[1..] == b[1..] + "/" + y;
      SlashSplits(a[1..], b[1..], x, y);
    }
  }

  /** Different packs or versions never share a blob path. */
  lemma KeysAreDistinct(id0: string, v0: string, id1: string, v1: string)
    requires '/' !in id0 && '/' !in id1 && Key(id0, v0) == Key(id1, v1)
    ensures id0 == id1 && v0 == v1
  {
    var x, y := v0 + ".tgz", v1 + ".tgz";
    assert Key(id0, v0)[6..] == id0 + "/" + x;
    assert Key(id1, v1)[6..] == id1 + "/" + y;
    SlashSplits(id0, id1, x, y);
    assert x[..|x| - 4] == v0 && y[..|y| - 4] == v1;
  }

  lemma UploadKeepsPack(e: Entry, files: map<string, Data>, id: string, version: string, data: Data, platform: Platform)
    requires GoodPack(e, files, platform) && '/' !in id
    requires e.id == id ==> forall i :: 0 <= i < |e.versions| ==> e.versions[i].version != version
    ensures GoodPack(e, files[Key(id, version) := data], platform)
  {
    forall i | 0 <= i < |e.versions|
      ensures GoodVersion(e.id, e.owner, e.versions[i], files[Key(id, version) := data], platform)
    {
      if Key(e.id, e.versions[i].version) == Key(id, version) {
        KeysAreDistinct(e.id, e.versions[i].version, id, version);
        assert false;
      }
    }
  }

  lemma AppendKeepsPack(existing: Option<Entry>, r: Request, o: Occasion, platform: Platform, files: map<string, Data>)
    requires existing.Some? ==> GoodPack(existing.value, files, platform) && existing.value.id == r.packId
                                && existing.value.owner == r.publisher
    requires existing.Some? ==>
               forall i :: 0 <= i < |existing.value.versions| ==> existing.value.versions[i].version != r.version
    requires AsRouted(r)
    requires Key(r.packId, r.version) in files && files[Key(r.packId, r.version)] == r.tarball.Bytes()
    ensures GoodPack(Updated(existing, UpsertAt(r, o, platform, 0)), files, platform)
  {
    var e := Updated(existing, UpsertAt(r, o, platform, 0));
    assert r.tarball.Bytes() == r.tarball.buffer;
    assert GoodVersion(r.packId, r.publisher, NewVersion(r, o, platform), files, platform);
    forall i | 0 <= i < |e.versions| ensures GoodVersion(e.id, e.owner, e.versions[i], files, platform) {
      if existing.Some? && i < |existing.value.versions| {
        assert e.versions[i] == existing.value.versions[i];
      }
    }
  }

  lemma ScreenPassed(packs: seq<Entry>, r: Request)
    requires Screen(packs, r.packId, r.version, r.publisher).None?
    ensures var e := Find(packs, r.packId);
            e.Some? ==> e.value.id == r.packId && e.value.owner == r.publisher
                        && forall i :: 0 <= i < |e.value.versions| ==> e.value.versions[i].version != r.version
  {
    FindMeans(packs, r.packId);
  }

  lemma UploadKeepsGood(w: World, r: Request, platform: Platform)
    requires GoodWorld(w, platform) && AsRouted(r)
    requires Screen(w.index.packs, r.packId, r.version, r.publisher).None?
    ensures GoodWorld(w.(files := w.files[Key(r.packId, r.version) := r.tarball.Bytes()]), platform)
  {
    var packs := w.index.packs;
    ScreenPassed(packs, r);
    forall id | Find(packs, id).Some?
      ensures GoodPack(Find(packs, id).value, w.files[Key(r.packId, r.version) := r.tarball.Bytes()], platform)
    {
      FindMeans(packs, id);
      UploadKeepsPack(Find(packs, id).value, w.files, r.packId, r.version, r.tarball.Bytes(), platform);
    }
  }

  lemma PutKeepsGood(w: World, r: Request, o: Occasion, platform: Platform)
    requires GoodWorld(w, platform) && AsRouted(r)
    requires Screen(w.index.packs, r.packId, r.version, r.publisher).None?
    requires Key(r.packId, r.version) in w.files && w.files[Key(r.packId, r.version)] == r.tarball.Bytes()
    ensures GoodWorld(w.(index := Index(w.index.indexVersion + 1, Apply(w.index.packs, UpsertAt(r, o, platform, 0)))),
                      platform)
  {
    var packs, u := w.index.packs, UpsertAt(r, o, platform, 0);
    ScreenPassed(packs, r);
    ApplyKeepsIdsDistinct(packs, u);
    AppendKeepsPack(Find(packs, r.packId), r, o, platform, w.files);
    forall id | Find(Apply(packs, u), id).Some? ensures GoodPack(Find(Apply(packs, u), id).value, w.files, platform) {
      FindAfterApply(packs, u, id);
    }
  }

  lemma RegisterKeepsGood(w: World, r: Request, o: Occasion, platform: Platform)
    requires GoodWorld(w, platform) && AsRouted(r)
    requires Screen(w.index.packs, r.packId, r.version, r.publisher).None?
    ensures GoodWorld(Register(w, r, o, platform).0, platform)
  {
    var uploaded := w.(files := w.files[Key(r.packId, r.version) := r.tarball.Bytes()]);
    UploadKeepsGood(w, r, platform);
    PutKeepsGood(uploaded, r, o, platform);
  }

  lemma PublishKeepsGood(w: World, r: Request, o: Occasion, platform: Platform)
    requires GoodWorld(w, platform) && AsRouted(r)
    ensures GoodWorld(Publish(w, r, o, platform).0, platform)
  {
    var limited := w.(limits := RateLimiter.Checked(w.limits, r.publisher, o.millis));
    assert GoodWorld(limited, platform);
    if Screen(w.index.packs, r.packId, r.version, r.publisher).None? {
      RegisterKeepsGood(limited, r, o, platform);
    }
  }

  /**
   * After any sequence of publishes: distinct pack ids; in each pack every version published by the
   * owner, none twice, the last one the latest, and each with the hash and manifest of the bytes stored.
   */
  lemma {:induction false} HistoryIsGood(history: seq<(Request, Occasion)>, platform: Platform)
    requires AllRouted(history)
    ensures GoodWorld(After(history, platform), platform)
  {
    if history != [] {
      var before := history[..|history| - 1];
      var (r, o) := history[|history| - 1];
      HistoryIsGood(before, platform);
      assert AsRouted(history[|history| - 1].0);
      PublishKeepsGood(After(before, platform), r, o, platform);
    }
  }

  lemma PublishChangesPacksLikeUpsert(w: World, r: Request, o: Occasion, platform: Platform)
    ensures var packs := Publish(w, r, o, platform).0.index.packs;
            packs == w.index.packs || packs == Apply(w.index.packs, UpsertAt(r, o, platform, 0))
  {
  }

  /** Packs never disappear or change owner, and their version lists only grow at the end. */
  lemma {:induction false} HistoryOnlyGrows(history: seq<(Request, Occasion)>, platform: Platform, i: nat, id: string)
    requires i <= |history|
    requires Find(After(history[..i], platform).index.packs, id).Some?
    ensures Extends(Find(After(history, platform).index.packs, id),
                    Find(After(history[..i], platform).index.packs, id).value)
  {
    if i == |history| {
      assert history[..i] == history;
    } else {
      var before := history[..|history| - 1];
      var (r, o) := history[|history| - 1];
      assert before[..i] == history[..i];
      HistoryOnlyGrows(before, platform, i, id);
      PublishChangesPacksLikeUpsert(After(before, platform), r, o, platform);
      FindAfterApply(After(before, platform).index.packs, UpsertAt(r, o, platform, 0), id);
    }
  }

  // ---------------------------------------------------------------------------------------------
  // What a publish answers and leaves, spelled out
  // ---------------------------------------------------------------------------------------------

  /** The version object a publish of this request builds. */
  predicate DescribesUpload(v: PackVersion, r: Request, o: Occasion, platform: Platform) {
    && v.version == r.version && v.publishedBy == r.publisher && v.publishedAt == o.publishedAt
    && v.integrity == "sha256:" + platform.hash(r.tarball.buffer)
    && v.blobUrl == platform.urlOf("packs/" + r.packId + "/" + r.version + ".tgz")
    && v.manifest == TarArchive.ManifestIn(TarArchive.DecodeTarPayload(r.tarball.Bytes(), platform.gunzip))
  }

  /** The upsert carries the request's pack, description and publisher, and the version built for it. */
  predicate CarriesRequest(u: Upsert, r: Request, o: Occasion, platform: Platform, attempt: nat) {
    && u.packId == r.packId && u.description == r.description && u.owner == r.publisher
    && u.now == o.updatedAt(attempt) && DescribesUpload(u.version, r, o, platform)
  }

  lemma UpsertMeans(r: Request, o: Occasion, platform: Platform, attempt: nat)
    ensures CarriesRequest(UpsertAt(r, o, platform, attempt), r, o, platform, attempt)
    ensures DescribesUpload(NewVersion(r, o, platform), r, o, platform)
  {
  }

  /** Whether a publish on its own gets past the limits and the screening. */
  ghost predicate Passes(w: World, r: Request, o: Occasion) {
    && RateLimiter.Allows(w.limits, r.publisher, o.millis)
    && r.tarball.length <= 52_428_800 && !o.lookupThrows
    && !OwnedByOther(w.index.packs, r.packId, r.publisher)
    && !AlreadyListed(w.index.packs, r.packId, r.version)
  }

  /** The answers in their order: each check, then the upload and the upsert. */
  lemma PublishAnswers(w: World, r: Request, o: Occasion, platform: Platform)
    ensures var response := Publish(w, r, o, platform).1;
            if !RateLimiter.Allows(w.limits, r.publisher, o.millis) then response == RateLimited
            else if r.tarball.length > 52_428_800 then response == TooLarge
            else if o.lookupThrows then response == LookupThrew
            else if OwnedByOther(w.index.packs, r.packId, r.publisher) then response == Refused(NotOwner)
            else if AlreadyListed(w.index.packs, r.packId, r.version) then response == Refused(DuplicateVersion)
            else if o.upload.Stores? && o.upserts(0).Completes? then
              response.Published? && DescribesUpload(response.version, r, o, platform)
            else response == Failed
  {
    ScreenMeans(w.index.packs, r.packId, r.version, r.publisher);
    UpsertMeans(r, o, platform, 0);
  }

  /** A publish puts its upsert iff it passes, its upload is acknowledged and its put takes effect. */
  lemma PublishPuts(w: World, r: Request, o: Occasion, platform: Platform)
    ensures var after, u := Publish(w, r, o, platform).0, UpsertAt(r, o, platform, 0);
            after.index ==
            if Passes(w, r, o) && o.upload.Stores? && (o.upserts(0).Completes? || o.upserts(0).PutLandsAndThrows?)
            then Index(w.index.indexVersion + 1, Apply(w.index.packs, u)) else w.index
    ensures Publish(w, r, o, platform).0.files ==
            if Passes(w, r, o) && !o.upload.ThrowsFirst?
            then w.files[Key(r.packId, r.version) := r.tarball.Bytes()] else w.files
  {
    ScreenMeans(w.index.packs, r.packId, r.version, r.publisher);
  }

  /** The upsert by which a publish changed the index, if it did. */
  function PutBy(w: World, r: Request, o: Occasion, platform: Platform): seq<Upsert> {
    if Publish(w, r, o, platform).0.index == w.index then [] else [UpsertAt(r, o, platform, 0)]
  }

  /** The upserts that a history of publishes has put, in order. */
  function LogOf(history: seq<(Request, Occasion)>, platform: Platform): seq<Upsert> {
    if history == [] then []
    else
      var before, last := history[..|history| - 1], history[|history| - 1];
      LogOf(before, platform) + PutBy(After(before, platform), last.0, last.1, platform)
  }

  /** The index is what this log makes of the empty one. */
  predicate IsLogged(index: Index, log: seq<Upsert>) {
    index == Index(|log|, Replay([], log))
  }

  lemma PublishIsLogged(w: World, r: Request, o: Occasion, platform: Platform, log: seq<Upsert>)
    requires IsLogged(w.index, log)
    ensures IsLogged(Publish(w, r, o, platform).0.index, log + PutBy(w, r, o, platform))
  {
    var u := UpsertAt(r, o, platform, 0);
    assert (log + [u])[..|log|] == log;
    assert log + [] == log;
    PublishPuts(w, r, o, platform);
  }

  /** So the registry after any history is what its log of upserts makes of the empty one. */
  lemma {:induction false} HistoryIsItsLog(history: seq<(Request, Occasion)>, platform: Platform)
    ensures IsLogged(After(history, platform).index, LogOf(history, platform))
  {
    if history != [] {
      var before, last := history[..|history| - 1], history[|history| - 1];
      HistoryIsItsLog(before, platform);
      PublishIsLogged(After(before, platform), last.0, last.1, platform, LogOf(before, platform));
    }
  }

  lemma PublishedPuts(w: World, r: Request, o: Occasion, platform: Platform)
    requires Publish(w, r, o, platform).1.Published?
    ensures Publish(w, r, o, platform).0.index.packs == Apply(w.index.packs, UpsertAt(r, o, platform, 0))
    ensures Publish(w, r, o, platform).1.version == NewVersion(r, o, platform)
  {
  }

  /**
   * A publish that was answered with success is listed from then on as its request describes it, and right
   * after it the pack shows its description, its version as the latest and its time.
   */
  lemma PublishedShows(history: seq<(Request, Occasion)>, platform: Platform, k: nat)
    requires k < |history|
    requires Publish(After(history[..k], platform), history[k].0, history[k].1, platform).1.Published?
    ensures var r, o := history[k].0, history[k].1;
            var v := Publish(After(history[..k], platform), r, o, platform).1.version;
            var now, later := Find(After(history[..k + 1], platform).index.packs, r.packId),
                              Find(After(history, platform).index.packs, r.packId);
            && DescribesUpload(v, r, o, platform)
            && now.Some? && now.value.description == r.description && now.value.latestVersion == r.version
            && now.value.updatedAt == o.updatedAt(0)
            && later.Some? && v in later.value.versions
  {
    var r, o := history[k].0, history[k].1;
    var w := After(history[..k], platform);
    UpsertMeans(r, o, platform, 0);
    PublishedPuts(w, r, o, platform);
    assert history[..k + 1][..k] == history[..k];
    UpsertLeaves(w.index.packs, UpsertAt(r, o, platform, 0));
    var now := Find(After(history[..k + 1], platform).index.packs, r.packId).value;
    assert now.versions[|now.versions| - 1] == NewVersion(r, o, platform);
    HistoryOnlyGrows(history, platform, k + 1, r.packId);
    var later := Find(After(history, platform).index.packs, r.packId).value;
    assert later.versions[|now.versions| - 1] == NewVersion(r, o, platform);
  }
}
