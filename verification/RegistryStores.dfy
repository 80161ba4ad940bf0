/**
 * The two registry stores: one keeps the index in a shared blob, the other in a map in memory.
 *
 * Other writers may change the blob between any two requests. `arriving` lists what each coming read
 * will find newly written by them; with nothing arriving the store has the blob to itself.
 */
module RegistryStores {
  import opened Text
  import opened PackRegistry
  import opened Selections

  datatype StoreError = ConcurrentModification | Outage

  datatype Result<T> = Ok(value: T) | Err(error: StoreError)

  /** How the requests of one upsert go: which one throws, if any, and whether a throwing put took effect. */
  datatype Fate = Completes | LoadThrows | CheckThrows | PutThrows | PutLandsAndThrows

  predicate Lands(fate: Fate) {
    fate.Completes? || fate.PutLandsAndThrows?
  }

  /** What one read sees: the newest foreign write if one has landed, else the blob as it was. */
  function Seen(blob: Option<StoredIndex>, arriving: seq<Option<StoredIndex>>): Option<StoredIndex> {
    if arriving != [] && arriving[0].Some? then arriving[0] else blob
  }

  function Rest(arriving: seq<Option<StoredIndex>>): seq<Option<StoredIndex>> {
    if arriving == [] then [] else arriving[1..]
  }

  /** The blob and the writes still to come after n reads, if this store puts nothing meanwhile. */
  function AfterReads(blob: Option<StoredIndex>, arriving: seq<Option<StoredIndex>>, n: nat)
    : (Option<StoredIndex>, seq<Option<StoredIndex>>)
  {
    if n == 0 then (blob, arriving)
    else
      var (b, a) := AfterReads(blob, arriving, n - 1);
      (Seen(b, a), Rest(a))
  }

  /** The index found by the n-th coming read, counting from 0. */
  function IndexAtRead(blob: Option<StoredIndex>, arriving: seq<Option<StoredIndex>>, n: nat): Index {
    Parse(AfterReads(blob, arriving, n + 1).0)
  }

  predicate Includes(text: string, needle: string) {
    exists i :: 0 <= i <= |text| && needle <= text[i..]
  }

  predicate Matches(pack: Entry, query: string, lower: string -> string) {
    Includes(lower(pack.id), lower(query)) || Includes(lower(pack.description), lower(query))
  }

  predicate Wanted(pack: Entry, query: Option<string>, lower: string -> string) {
    query.GetOr("") == "" || Matches(pack, query.GetOr(""), lower)
  }

  /** The packs a query asks for: all of them without one. */
  function WantedBy(query: Option<string>, lower: string -> string): Entry -> bool {
    pack => Wanted(pack, query, lower)
  }

  function Search(packs: seq<Entry>, query: Option<string>, lower: string -> string): seq<Entry> {
    if query.GetOr("") == "" then packs else Filter(packs, WantedBy(query, lower))
  }

  function Filter(packs: seq<Entry>, wanted: Entry -> bool): seq<Entry> {
    if packs == [] then []
    else
      var pack := packs[|packs| - 1];
      var found := Filter(packs[..|packs| - 1], wanted);
      if wanted(pack) then found + [pack] else found
  }

  lemma {:induction false} FilterSelects(packs: seq<Entry>, wanted: Entry -> bool)
    ensures Filter(packs, wanted) == Selected(packs, wanted)
  {
    if packs != [] {
      FilterSelects(packs[..|packs| - 1], wanted);
      SelectedOneMore(packs, wanted);
    }
  }

  lemma {:induction false} FilterKeepsAll(packs: seq<Entry>, wanted: Entry -> bool)
    requires forall pack :: wanted(pack)
    ensures Filter(packs, wanted) == packs
  {
    if packs != [] {
      FilterKeepsAll(packs[..|packs| - 1], wanted);
    }
  }

  /** `needle` is a stretch of `text`. */
  ghost predicate Contains(text: string, needle: string) {
    exists a, b :: text == a + needle + b
  }

  lemma IncludesMeans(text: string, needle: string)
    ensures Includes(text, needle) <==> Contains(text, needle)
  {
    if Includes(text, needle) {
      var i :| 0 <= i <= |text| && needle <= text[i..];
      assert text == text[..i] + needle + text[i..][|needle|..];
    }
    if Contains(text, needle) {
      var a, b :| text == a + needle + b;
      assert text[|a|..] == needle + b;
      assert needle <= text[|a|..];
    }
  }

  /** Without a query every pack, else those whose id or description contains it in lower case. */
  ghost function Asked(query: Option<string>, lower: string -> string): Entry -> bool {
    (pack: Entry) =>
      || query == None || query == Some("")
      || Contains(lower(pack.id), lower(query.value))
      || Contains(lower(pack.description), lower(query.value))
  }

  lemma WantedIsAsked(pack: Entry, query: Option<string>, lower: string -> string)
    ensures WantedBy(query, lower)(pack) <==> Asked(query, lower)(pack)
  {
    if query.Some? {
      IncludesMeans(lower(pack.id), lower(query.value));
      IncludesMeans(lower(pack.description), lower(query.value));
    }
  }

  /** What a search returns is the selection of the packs its query asks for. */
  lemma SearchSelects(packs: seq<Entry>, query: Option<string>, lower: string -> string)
    ensures IsSelection(packs, Search(packs, query, lower), Asked(query, lower))
  {
    FilterSelects(packs, WantedBy(query, lower));
    SelectedIsSelection(packs, WantedBy(query, lower));
    if query.GetOr("") == "" {
      FilterKeepsAll(packs, WantedBy(query, lower));
    }
    forall pack ensures WantedBy(query, lower)(pack) <==> Asked(query, lower)(pack) {
      WantedIsAsked(pack, query, lower);
    }
    SelectAlike(packs, Search(packs, query, lower), WantedBy(query, lower), Asked(query, lower));
  }

  class BlobRegistryStore {
    var blob: Option<StoredIndex>
    var arriving: seq<Option<StoredIndex>>
    ghost var puts: seq<Index>  // every index this store has written

    constructor (blob: Option<StoredIndex>, arriving: seq<Option<StoredIndex>>)
      ensures this.blob == blob && this.arriving == arriving && puts == []
    {
      this.blob, this.arriving, puts := blob, arriving, [];
    }

    method LoadIndex() returns (index: Index)
      modifies this
      ensures blob == Seen(old(blob), old(arriving)) && arriving == Rest(old(arriving)) && puts == old(puts)
      ensures index == Parse(blob) == IndexAtRead(old(blob), old(arriving), 0)
      ensures blob.None? ==> index.indexVersion == 0 && index.packs == []
      ensures blob.Some? ==>
                && index.indexVersion == (if blob.value.indexVersion.Some? then blob.value.indexVersion.value else 0)
                && index.packs == (if blob.value.packs.Some? then blob.value.packs.value else [])
    {
      assert AfterReads(blob, arriving, 1) == (Seen(blob, arriving), Rest(arriving));
      if arriving != [] {
        if arriving[0].Some? {
          blob := arriving[0];
        }
        arriving := arriving[1..];
      }
      if blob.None? {
        return Index(0, []);
      }
      index := Index(blob.value.indexVersion.GetOr(0), blob.value.packs.GetOr([]));
    }

    /** Overwrites the blob only if the re-read still finds `expected`. */
    method SaveIndex(packs: seq<Entry>, expected: nat, fate: Fate) returns (r: Result<()>)
      requires !fate.LoadThrows?
      modifies this
      ensures var current := Parse(Seen(old(blob), old(arriving)));
              && r == (if fate.CheckThrows? then Err(Outage)
                       else if current.indexVersion != expected then Err(ConcurrentModification)
                       else if fate.Completes? then Ok(()) else Err(Outage))
              && (if !fate.CheckThrows? && current.indexVersion == expected && Lands(fate)
                  then Parse(blob) == Index(expected + 1, packs) && puts == old(puts) + [Parse(blob)]
                  else blob == (if fate.CheckThrows? then old(blob) else Seen(old(blob), old(arriving)))
                       && puts == old(puts))
      ensures arriving == if fate.CheckThrows? then old(arriving) else Rest(old(arriving))
    {
      if fate.CheckThrows? {
        return Err(Outage);
      }
      var current := LoadIndex();
      if current.indexVersion != expected {
        return Err(ConcurrentModification);
      }
      if fate.PutThrows? {
        return Err(Outage);
      }
      blob := Some(Stored(Index(expected + 1, packs)));
      puts := puts + [Index(expected + 1, packs)];
      return if fate.Completes? then Ok(()) else Err(Outage);
    }

    method ListPacks(query: Option<string>, lower: string -> string) returns (packs: seq<Entry>)
      modifies this
      ensures blob == Seen(old(blob), old(arriving)) && arriving == Rest(old(arriving)) && puts == old(puts)
      ensures packs == Search(IndexAtRead(old(blob), old(arriving), 0).packs, query, lower)
      ensures IsSelection(IndexAtRead(old(blob), old(arriving), 0).packs, packs, Asked(query, lower))
    {
      var index := LoadIndex();
      packs := Search(index.packs, query, lower);
      SearchSelects(index.packs, query, lower);
    }

    method GetPackById(id: string) returns (pack: Option<Entry>)
      modifies this
      ensures blob == Seen(old(blob), old(arriving)) && arriving == Rest(old(arriving)) && puts == old(puts)
      ensures pack == Find(IndexAtRead(old(blob), old(arriving), 0).packs, id)
    {
      var index := LoadIndex();
      pack := Find(index.packs, id);
    }

    /** Commits the upsert of the index it loaded, or changes nothing itself. */
    method UpsertPackVersion(u: Upsert, fate: Fate) returns (r: Result<Entry>)
      modifies this
      ensures var base := IndexAtRead(old(blob), old(arriving), 0);
              && r == UpsertResult(old(blob), old(arriving), u, fate)
              && (r.Ok? ==> EntryAfter(Find(base.packs, u.packId), u, r.value))
              && (if UpsertWrites(old(blob), old(arriving), fate)
                  then Parse(blob) == Index(base.indexVersion + 1, Apply(base.packs, u))
                       && puts == old(puts) + [Parse(blob)]
                  else blob == AfterReads(old(blob), old(arriving), UpsertReads(fate)).0 && puts == old(puts))
      ensures arriving == AfterReads(old(blob), old(arriving), UpsertReads(fate)).1
    {
      if fate.LoadThrows? {
        return Err(Outage);
      }
      var index := LoadIndex();
      var existing := Find(index.packs, u.packId);
      var updated;
      var packs;
      if existing.Some? {
        updated := existing.value.(description := u.description, latestVersion := u.version.version,
                                   versions := existing.value.versions + [u.version], updatedAt := u.now);
        packs := ReplaceById(index.packs, u.packId, updated);
      } else {
        updated := Entry(u.packId, u.description, u.owner, u.version.version, [u.version], u.now, u.now);
        packs := index.packs + [updated];
      }
      assert AfterReads(old(blob), old(arriving), 1) == (blob, arriving);
      var saved := SaveIndex(packs, index.indexVersion, fate);
      match saved
      case Ok(_) => return Ok(updated);
      case Err(e) => return Err(e);
    }
  }

  /** How many of its two reads an upsert completes. */
  function UpsertReads(fate: Fate): nat {
    match fate
    case LoadThrows => 0
    case CheckThrows => 1
    case _ => 2
  }

  /** The re-read finds the version that was loaded. */
  predicate Agree(blob: Option<StoredIndex>, arriving: seq<Option<StoredIndex>>) {
    IndexAtRead(blob, arriving, 1).indexVersion == IndexAtRead(blob, arriving, 0).indexVersion
  }

  predicate UpsertWrites(blob: Option<StoredIndex>, arriving: seq<Option<StoredIndex>>, fate: Fate) {
    Lands(fate) && Agree(blob, arriving)
  }

  function UpsertResult(blob: Option<StoredIndex>, arriving: seq<Option<StoredIndex>>, u: Upsert, fate: Fate)
    : Result<Entry>
  {
    if fate.LoadThrows? || fate.CheckThrows? then Err(Outage)
    else if !Agree(blob, arriving) then Err(ConcurrentModification)
    else if fate.Completes? then Ok(Updated(Find(IndexAtRead(blob, arriving, 0).packs, u.packId), u))
    else Err(Outage)
  }

  lemma {:induction false} NobodyArriving(blob: Option<StoredIndex>, n: nat)
    ensures AfterReads(blob, [], n) == (blob, [])
  {
    if n > 0 {
      NobodyArriving(blob, n - 1);
    }
  }

  // ---------------------------------------------------------------------------------------------
  // The in-memory store
  // ---------------------------------------------------------------------------------------------

  /** A JavaScript Map: its entries and the order in which their keys were first set. */
  datatype PackMap = PackMap(order: seq<string>, packs: map<string, Entry>) {
    ghost predicate Valid() {
      && (forall i :: 0 <= i < |order| ==> order[i] in packs)
      && (forall id :: id in packs ==> id in order && packs[id].id == id)
      && (forall i, j :: 0 <= i < j < |order| ==> order[i] != order[j])
    }

    function Values(): seq<Entry>
      requires Valid()
    {
      seq(|order|, i requires 0 <= i < |order| => packs[order[i]])
    }

    function Get(id: string): Option<Entry> {
      if id in packs then Some(packs[id]) else None
    }

    function Set(id: string, pack: Entry): PackMap {
      PackMap(if id in packs then order else order + [id], packs[id := pack])
    }
  }

  class MemoryRegistryStore {
    var order: seq<string>
    var packs: map<string, Entry>

    ghost function View(): PackMap
      reads this
    {
      PackMap(order, packs)
    }

    constructor (initialPacks: seq<Entry>)
      ensures View().Valid()
      ensures DistinctIds(initialPacks) ==> View().Values() == initialPacks
    {
      order, packs := [], map[];
      new;
      var i := 0;
      while i < |initialPacks|
        invariant 0 <= i <= |initialPacks|
        invariant View().Valid()
        invariant DistinctIds(initialPacks) ==> View().Values() == initialPacks[..i]
      {
        var pack := initialPacks[i];
        ghost var before := View();
        if pack.id !in packs {
          order := order + [pack.id];
        }
        packs := packs[pack.id := pack];
        assert View() == before.Set(pack.id, pack);
        SetKeepsValid(before, pack.id, pack);
        if DistinctIds(initialPacks) {
          SetAppends(before, initialPacks, i);
        }
        i := i + 1;
      }
    }

    method ListPacks(query: Option<string>, lower: string -> string) returns (found: seq<Entry>)
      requires View().Valid()
      ensures found == Search(View().Values(), query, lower)
      ensures IsSelection(View().Values(), found, Asked(query, lower))
    {
      var all := PackMap(order, packs).Values();
      found := Search(all, query, lower);
      SearchSelects(all, query, lower);
    }

    method GetPackById(id: string) returns (pack: Option<Entry>)
      ensures pack == View().Get(id)
    {
      pack := if id in packs then Some(packs[id]) else None;
    }

    method UpsertPackVersion(u: Upsert) returns (r: Entry)
      requires View().Valid()
      modifies this
      ensures r == Updated(old(View().Get(u.packId)), u)
      ensures EntryAfter(old(View().Get(u.packId)), u, r)
      ensures View() == old(View()).Set(u.packId, r) && View().Valid()
      ensures View().Values() == Apply(old(View().Values()), u)
    {
      SetIsApply(View(), u);
      if u.packId in packs {
        var existing := packs[u.packId];
        r := existing.(description := u.description, latestVersion := u.version.version,
                       versions := existing.versions + [u.version], updatedAt := u.now);
      } else {
        r := Entry(u.packId, u.description, u.owner, u.version.version, [u.version], u.now, u.now);
        order := order + [u.packId];
      }
      packs := packs[u.packId := r];
    }
  }

  lemma SetKeepsValid(m: PackMap, id: string, pack: Entry)
    requires m.Valid() && pack.id == id
    ensures m.Set(id, pack).Valid()
  {
    var n := m.Set(id, pack);
    forall k | k in n.packs ensures k in n.order && n.packs[k].id == k {
      if k == id && id !in m.packs {
        assert n.order[|m.order|] == id;
      } else {
        assert k in m.order;
      }
    }
  }

  lemma SetAppends(m: PackMap, packs: seq<Entry>, i: nat)
    requires m.Valid() && DistinctIds(packs) && i < |packs| && m.Values() == packs[..i]
    ensures m.Set(packs[i].id, packs[i]).Valid()
    ensures m.Set(packs[i].id, packs[i]).Values() == packs[..i + 1]
  {
    SetKeepsValid(m, packs[i].id, packs[i]);
    forall k | 0 <= k < |m.order| ensures m.order[k] != packs[i].id {
      assert m.Values()[k] == packs[k];
    }
    assert packs[i].id !in m.packs;
    assert packs[..i + 1] == packs[..i] + [packs[i]];
    assert m.Set(packs[i].id, packs[i]).Values() == m.Values() + [packs[i]];
  }

  /** Looking up by key agrees with searching the values in order. */
  lemma GetIsFind(m: PackMap, id: string)
    requires m.Valid()
    ensures m.Get(id) == Find(m.Values(), id)
  {
    var all := m.Values();
    FindMeans(all, id);
    if id in m.packs {
      var k :| 0 <= k < |m.order| && m.order[k] == id;
      assert all[k].id == id;
      var found := Find(all, id).value;
      var i :| 0 <= i < |all| && all[i] == found;
      assert m.order[i] == found.id;
    } else {
      forall i | 0 <= i < |all| ensures all[i].id != id {
        assert m.order[i] == all[i].id;
      }
    }
  }

  /** Setting a key of the map is the list upsert, order included. */
  lemma SetIsApply(m: PackMap, u: Upsert)
    requires m.Valid()
    ensures var n := m.Set(u.packId, Updated(m.Get(u.packId), u));
            n.Valid() && n.Values() == Apply(m.Values(), u)
  {
    var updated := Updated(m.Get(u.packId), u);
    var n := m.Set(u.packId, updated);
    GetIsFind(m, u.packId);
    SetKeepsValid(m, u.packId, updated);
    if u.packId in m.packs {
      ReplaceAt(m.Values(), u.packId, updated);
      forall i | 0 <= i < |m.order| ensures n.Values()[i] == Apply(m.Values(), u)[i] {
        assert m.packs[m.order[i]].id == m.order[i];
      }
    } else {
      assert n.Values() == m.Values() + [updated];
    }
  }

  // ---------------------------------------------------------------------------------------------
  // One client cannot tell the stores apart
  // ---------------------------------------------------------------------------------------------

  datatype Op = UpsertOp(u: Upsert) | GetOp(id: string) | ListOp(query: Option<string>)

  datatype Reply = Upserted(pack: Entry) | Got(found: Option<Entry>) | Listed(packs: seq<Entry>)

  /** One operation on the blob store with nobody else writing, by its methods' contracts. */
  function BlobStep(index: Index, op: Op, lower: string -> string): (Reply, Index) {
    match op
    case UpsertOp(u) =>
      (Upserted(Updated(Find(index.packs, u.packId), u)), Index(index.indexVersion + 1, Apply(index.packs, u)))
    case GetOp(id) => (Got(Find(index.packs, id)), index)
    case ListOp(q) => (Listed(Search(index.packs, q, lower)), index)
  }

  /** One operation on the memory store, by its methods' contracts. */
  ghost function MemoryStep(m: PackMap, op: Op, lower: string -> string): (Reply, PackMap)
    requires m.Valid()
  {
    match op
    case UpsertOp(u) =>
      var r := Updated(m.Get(u.packId), u);
      (Upserted(r), m.Set(u.packId, r))
    case GetOp(id) => (Got(m.Get(id)), m)
    case ListOp(q) => (Listed(Search(m.Values(), q, lower)), m)
  }

  function BlobReplies(index: Index, ops: seq<Op>, lower: string -> string): seq<Reply>
    decreases |ops|
  {
    if ops == [] then []
    else
      var (reply, next) := BlobStep(index, ops[0], lower);
      [reply] + BlobReplies(next, ops[1..], lower)
  }

  ghost function MemoryReplies(m: PackMap, ops: seq<Op>, lower: string -> string): seq<Reply>
    requires m.Valid()
    decreases |ops|
  {
    if ops == [] then []
    else
      var (reply, next) := MemoryStep(m, ops[0], lower);
      MemoryStepKeepsValid(m, ops[0], lower);
      [reply] + MemoryReplies(next, ops[1..], lower)
  }

  method AskBlobStore(store: BlobRegistryStore, op: Op, lower: string -> string) returns (reply: Reply)
    requires store.arriving == []
    modifies store
    ensures store.arriving == []
    ensures (reply, Parse(store.blob)) == BlobStep(old(Parse(store.blob)), op, lower)
  {
    NobodyArriving(store.blob, 1);
    NobodyArriving(store.blob, 2);
    match op
    case UpsertOp(u) =>
      var r := store.UpsertPackVersion(u, Completes);
      return Upserted(r.value);
    case GetOp(id) =>
      var found := store.GetPackById(id);
      return Got(found);
    case ListOp(q) =>
      var packs := store.ListPacks(q, lower);
      return Listed(packs);
  }

  method AskMemoryStore(store: MemoryRegistryStore, op: Op, lower: string -> string) returns (reply: Reply)
    requires store.View().Valid()
    modifies store
    ensures store.View().Valid()
    ensures (reply, store.View()) == MemoryStep(old(store.View()), op, lower)
  {
    match op
    case UpsertOp(u) =>
      var r := store.UpsertPackVersion(u);
      return Upserted(r);
    case GetOp(id) =>
      var found := store.GetPackById(id);
      return Got(found);
    case ListOp(q) =>
      var packs := store.ListPacks(q, lower);
      return Listed(packs);
  }

  ghost predicate InSync(index: Index, m: PackMap) {
    m.Valid() && m.Values() == index.packs
  }

  method AskBoth(blob: BlobRegistryStore, memory: MemoryRegistryStore, op: Op, lower: string -> string)
    returns (fromBlob: Reply, fromMemory: Reply)
    requires blob.arriving == [] && InSync(Parse(blob.blob), memory.View())
    modifies blob, memory
    ensures blob.arriving == [] && InSync(Parse(blob.blob), memory.View())
    ensures fromBlob == fromMemory
    ensures (fromBlob, Parse(blob.blob)) == BlobStep(old(Parse(blob.blob)), op, lower)
  {
    StepsAgree(Parse(blob.blob), memory.View(), op, lower);
    fromBlob := AskBlobStore(blob, op, lower);
    fromMemory := AskMemoryStore(memory, op, lower);
  }

  lemma ReplyStep(given: seq<Reply>, index: Index, ops: seq<Op>, i: nat, lower: string -> string)
    requires i < |ops|
    ensures var (reply, next) := BlobStep(index, ops[i], lower);
            given + BlobReplies(index, ops[i..], lower) == (given + [reply]) + BlobReplies(next, ops[i + 1..], lower)
  {
    assert ops[i..][1..] == ops[i + 1..];
  }

  /** A client alone with an empty blob store and one with an empty memory store get the same replies. */
  method ServeBoth(ops: seq<Op>, lower: string -> string) returns (fromBlob: seq<Reply>, fromMemory: seq<Reply>)
    ensures fromBlob == fromMemory == BlobReplies(Index(0, []), ops, lower)
  {
    var blob := new BlobRegistryStore(None, []);
    var memory := new MemoryRegistryStore([]);
    fromBlob, fromMemory := [], [];
    for i := 0 to |ops|
      invariant blob.arriving == [] && InSync(Parse(blob.blob), memory.View())
      invariant fromBlob == fromMemory
      invariant fromBlob + BlobReplies(Parse(blob.blob), ops[i..], lower) == BlobReplies(Index(0, []), ops, lower)
    {
      ReplyStep(fromBlob, Parse(blob.blob), ops, i, lower);
      var answer, other := AskBoth(blob, memory, ops[i], lower);
      fromBlob, fromMemory := fromBlob + [answer], fromMemory + [other];
    }
  }

  lemma MemoryStepKeepsValid(m: PackMap, op: Op, lower: string -> string)
    requires m.Valid()
    ensures MemoryStep(m, op, lower).1.Valid()
  {
    if op.UpsertOp? {
      SetIsApply(m, op.u);
    }
  }

  lemma StepsAgree(index: Index, m: PackMap, op: Op, lower: string -> string)
    requires m.Valid() && m.Values() == index.packs
    ensures var (reply, n) := MemoryStep(m, op, lower);
            n.Valid() && BlobStep(index, op, lower).0 == reply && BlobStep(index, op, lower).1.packs == n.Values()
  {
    match op
    case UpsertOp(u) =>
      GetIsFind(m, u.packId);
      SetIsApply(m, u);
    case GetOp(id) => GetIsFind(m, id);
    case ListOp(_) =>
  }

  /** Started on the same packs, the stores answer every sequence of operations alike, in the same order. */
  lemma {:induction false} StoresAgree(index: Index, m: PackMap, ops: seq<Op>, lower: string -> string)
    requires m.Valid() && m.Values() == index.packs
    ensures BlobReplies(index, ops, lower) == MemoryReplies(m, ops, lower)
    decreases |ops|
  {
    if ops != [] {
      StepsAgree(index, m, ops[0], lower);
      StoresAgree(BlobStep(index, ops[0], lower).1, MemoryStep(m, ops[0], lower).1, ops[1..], lower);
    }
  }
}
