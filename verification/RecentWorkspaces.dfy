/** The five most recently used workspaces, kept in a storage cell that is cut on every save. */
module RecentWorkspaces {
  import opened Selections
  import opened Text

  const MAX_RECENT_WORKSPACES := 5

  datatype Recent = Recent(path: string, name: string, lastUsed: int)

  /** The stored text: missing, not a JSON array, or a list of entries. */
  datatype Raw = Absent | Malformed | Listed(entries: seq<Recent>)

  function Load(raw: Raw): seq<Recent> {
    if raw.Listed? then raw.entries else []
  }

  /** The entry for a path used now; its name is the last part of the path. */
  function Visit(path: string, now: int): Recent {
    var parts := Split(path, '/');
    Recent(path, parts[|parts| - 1], now)
  }

  function Without(entries: seq<Recent>, path: string): seq<Recent> {
    if entries == [] then []
    else
      var n := |entries| - 1;
      var left := Without(entries[..n], path);
      if entries[n].path != path then left + [entries[n]] else left
  }

  /** Puts `r` behind everything at least as recent. */
  function Insert(entries: seq<Recent>, r: Recent): seq<Recent> {
    if entries == [] then [r]
    else
      var n := |entries| - 1;
      if entries[n].lastUsed >= r.lastUsed then entries + [r] else Insert(entries[..n], r) + [entries[n]]
  }

  /** `Array.prototype.sort`, which is stable, by `lastUsed` from new to old. */
  function SortByRecency(entries: seq<Recent>): seq<Recent> {
    if entries == [] then []
    else Insert(SortByRecency(entries[..|entries| - 1]), entries[|entries| - 1])
  }

  function Cut(entries: seq<Recent>): seq<Recent> {
    if |entries| <= MAX_RECENT_WORKSPACES then entries else entries[..MAX_RECENT_WORKSPACES]
  }

  function Saved(stored: seq<Recent>, r: Recent): seq<Recent> {
    Cut(SortByRecency([r] + Without(stored, r.path)))
  }

  function Displayed(stored: seq<Recent>): seq<Recent> {
    Cut(SortByRecency(stored))
  }

  /** The browser's storage cell. */
  class Storage {
    var raw: Raw

    constructor (raw: Raw)
      ensures this.raw == raw
    {
      this.raw := raw;
    }

    method SaveRecentWorkspace(path: string, now: int)
      modifies this
      ensures raw == Listed(Saved(Load(old(raw)), Visit(path, now)))
      ensures !old(raw).Listed? ==> raw == Listed([Visit(path, now)])
    {
      var existing := Load(raw);
      var filtered := Without(existing, path);
      SortedStays([Visit(path, now)]);
      assert [Visit(path, now)] + [] == [Visit(path, now)];
      var merged := SortByRecency([Visit(path, now)] + filtered);
      raw := Listed(Cut(merged));
    }
  }

  // ---------------------------------------------------------------------------------------------
  // The sort
  // ---------------------------------------------------------------------------------------------

  predicate Descending(entries: seq<Recent>) {
    forall i :: 0 < i < |entries| ==> entries[i - 1].lastUsed >= entries[i].lastUsed
  }

  function UsedAt(entries: seq<Recent>, time: int): seq<Recent> {
    if entries == [] then []
    else
      var n := |entries| - 1;
      var used := UsedAt(entries[..n], time);
      if entries[n].lastUsed == time then used + [entries[n]] else used
  }

  lemma UsedAtSnoc(entries: seq<Recent>, r: Recent, time: int)
    ensures UsedAt(entries + [r], time) ==
            if r.lastUsed == time then UsedAt(entries, time) + [r] else UsedAt(entries, time)
  {
    assert (entries + [r])[..|entries|] == entries;
  }

  lemma {:induction false} InsertIsStable(entries: seq<Recent>, r: Recent, time: int)
    ensures UsedAt(Insert(entries, r), time) == UsedAt(entries + [r], time)
  {
    UsedAtSnoc(entries, r, time);
    if entries != [] && entries[|entries| - 1].lastUsed < r.lastUsed {
      var before, x := entries[..|entries| - 1], entries[|entries| - 1];
      InsertIsStable(before, r, time);
      UsedAtSnoc(before, r, time);
      UsedAtSnoc(Insert(before, r), x, time);
    }
  }

  lemma {:induction false} InsertKeeps(entries: seq<Recent>, r: Recent)
    ensures multiset(Insert(entries, r)) == multiset(entries) + multiset{r}
  {
    if entries != [] && entries[|entries| - 1].lastUsed < r.lastUsed {
      InsertKeeps(entries[..|entries| - 1], r);
      assert entries == entries[..|entries| - 1] + [entries[|entries| - 1]];
    }
  }

  lemma {:induction false} InsertDescends(entries: seq<Recent>, r: Recent)
    requires Descending(entries)
    ensures Descending(Insert(entries, r)) && Insert(entries, r) != []
    ensures var last := Insert(entries, r)[|Insert(entries, r)| - 1];
            last == r || (entries != [] && last == entries[|entries| - 1])
  {
    if entries != [] && entries[|entries| - 1].lastUsed < r.lastUsed {
      InsertDescends(entries[..|entries| - 1], r);
    }
  }

  lemma {:induction false} SortDescends(entries: seq<Recent>)
    ensures Descending(SortByRecency(entries))
  {
    if entries != [] {
      SortDescends(entries[..|entries| - 1]);
      InsertDescends(SortByRecency(entries[..|entries| - 1]), entries[|entries| - 1]);
    }
  }

  lemma {:induction false} SortKeeps(entries: seq<Recent>)
    ensures multiset(SortByRecency(entries)) == multiset(entries)
  {
    if entries != [] {
      SortKeeps(entries[..|entries| - 1]);
      InsertKeeps(SortByRecency(entries[..|entries| - 1]), entries[|entries| - 1]);
      MultisetSnoc(entries);
    }
  }

  lemma MultisetSnoc(entries: seq<Recent>)
    requires entries != []
    ensures multiset(entries) == multiset(entries[..|entries| - 1]) + multiset{entries[|entries| - 1]}
  {
    assert entries == entries[..|entries| - 1] + [entries[|entries| - 1]];
  }

  lemma {:induction false} SortIsStable(entries: seq<Recent>, time: int)
    ensures UsedAt(SortByRecency(entries), time) == UsedAt(entries, time)
  {
    if entries != [] {
      var before, r := entries[..|entries| - 1], entries[|entries| - 1];
      SortIsStable(before, time);
      InsertIsStable(SortByRecency(before), r, time);
      UsedAtSnoc(SortByRecency(before), r, time);
    }
  }

  /** Sorting orders the entries, keeps every one, and keeps the order of those with the same time. */
  lemma SortMeans(entries: seq<Recent>, time: int)
    ensures Descending(SortByRecency(entries)) && multiset(SortByRecency(entries)) == multiset(entries)
    ensures UsedAt(SortByRecency(entries), time) == UsedAt(entries, time)
  {
    SortDescends(entries);
    SortKeeps(entries);
    SortIsStable(entries, time);
  }

  lemma {:induction false} SortedStays(entries: seq<Recent>)
    requires Descending(entries)
    ensures SortByRecency(entries) == entries
  {
    if entries != [] {
      var n := |entries| - 1;
      SortedStays(entries[..n]);
      assert entries[..n] + [entries[n]] == entries;
      assert n > 0 ==> entries[n - 1].lastUsed >= entries[n].lastUsed;
    }
  }

  // ---------------------------------------------------------------------------------------------
  // Paths
  // ---------------------------------------------------------------------------------------------

  predicate HasPath(entries: seq<Recent>, path: string) {
    entries != [] && (entries[|entries| - 1].path == path || HasPath(entries[..|entries| - 1], path))
  }

  predicate DistinctPaths(entries: seq<Recent>) {
    entries == [] ||
    (DistinctPaths(entries[..|entries| - 1]) && !HasPath(entries[..|entries| - 1], entries[|entries| - 1].path))
  }

  lemma HasPathSnoc(entries: seq<Recent>, r: Recent, path: string)
    ensures HasPath(entries + [r], path) <==> HasPath(entries, path) || r.path == path
    ensures DistinctPaths(entries + [r]) <==> DistinctPaths(entries) && !HasPath(entries, r.path)
  {
    assert (entries + [r])[..|entries|] == entries;
  }

  lemma {:induction false} HasPathSplits(a: seq<Recent>, b: seq<Recent>, path: string)
    ensures HasPath(a + b, path) <==> HasPath(a, path) || HasPath(b, path)
    ensures DistinctPaths(a + b) ==> DistinctPaths(a)
    decreases |b|
  {
    if b == [] {
      assert a + b == a;
    } else {
      var n := |b| - 1;
      HasPathSplits(a, b[..n], path);
      assert a + b == a + b[..n] + [b[n]];
      HasPathSnoc(a + b[..n], b[n], path);
    }
  }

  lemma {:induction false} WithoutMeans(entries: seq<Recent>, path: string, other: string)
    ensures HasPath(Without(entries, path), other) <==> HasPath(entries, other) && other != path
    ensures DistinctPaths(entries) ==> DistinctPaths(Without(entries, path))
    ensures DistinctPaths(entries) ==> |Without(entries, path)| == |entries| - if HasPath(entries, path) then 1 else 0
  {
    if entries != [] {
      var n := |entries| - 1;
      WithoutMeans(entries[..n], path, other);
      WithoutMeans(entries[..n], path, entries[n].path);
      HasPathSnoc(Without(entries[..n], path), entries[n], other);
    }
  }

  lemma {:induction false} HeadIsDistinct(r: Recent, entries: seq<Recent>)
    requires DistinctPaths(entries) && !HasPath(entries, r.path)
    ensures DistinctPaths([r] + entries)
  {
    if entries == [] {
      assert [r] + entries == [r] && [r][..0] == [];
    } else {
      var n := |entries| - 1;
      HeadIsDistinct(r, entries[..n]);
      assert [r] + entries == [r] + entries[..n] + [entries[n]];
      HasPathSplits([r], entries[..n], entries[n].path);
      HasPathSnoc([r] + entries[..n], entries[n], r.path);
    }
  }

  lemma {:induction false} InsertPaths(entries: seq<Recent>, r: Recent, path: string)
    ensures HasPath(Insert(entries, r), path) <==> HasPath(entries, path) || r.path == path
    ensures DistinctPaths(entries) && !HasPath(entries, r.path) ==> DistinctPaths(Insert(entries, r))
  {
    if entries != [] && entries[|entries| - 1].lastUsed < r.lastUsed {
      var before, x := entries[..|entries| - 1], entries[|entries| - 1];
      InsertPaths(before, r, path);
      InsertPaths(before, r, x.path);
      HasPathSnoc(Insert(before, r), x, path);
    } else {
      HasPathSnoc(entries, r, path);
    }
  }

  lemma {:induction false} SortPaths(entries: seq<Recent>, path: string)
    ensures HasPath(SortByRecency(entries), path) <==> HasPath(entries, path)
    ensures DistinctPaths(entries) ==> DistinctPaths(SortByRecency(entries))
  {
    if entries != [] {
      var before, r := entries[..|entries| - 1], entries[|entries| - 1];
      SortPaths(before, path);
      SortPaths(before, r.path);
      InsertPaths(SortByRecency(before), r, path);
    }
  }

  // ---------------------------------------------------------------------------------------------
  // Every history
  // ---------------------------------------------------------------------------------------------

  /** What the cell holds after saving each of `history` in turn, from an empty cell. */
  function Stored(history: seq<Recent>): seq<Recent> {
    if history == [] then []
    else Saved(Stored(history[..|history| - 1]), history[|history| - 1])
  }

  lemma CutIsPrefix(entries: seq<Recent>)
    ensures Cut(entries) + entries[|Cut(entries)|..] == entries && |Cut(entries)| <= MAX_RECENT_WORKSPACES
  {
  }

  lemma SavedIsTidy(stored: seq<Recent>, r: Recent)
    requires DistinctPaths(stored)
    ensures DistinctPaths(Saved(stored, r)) && Descending(Saved(stored, r))
  {
    var merged := [r] + Without(stored, r.path);
    WithoutMeans(stored, r.path, r.path);
    HeadIsDistinct(r, Without(stored, r.path));
    SortDescends(merged);
    SortPaths(merged, r.path);
    var sorted := SortByRecency(merged);
    CutIsPrefix(sorted);
    HasPathSplits(Cut(sorted), sorted[|Cut(sorted)|..], r.path);
  }

  /** Whatever the clock does, the cell holds at most five entries, of distinct paths, from new to old. */
  lemma {:induction false} StoredIsTidy(history: seq<Recent>)
    ensures |Stored(history)| <= 5
    ensures DistinctPaths(Stored(history)) && Descending(Stored(history))
  {
    if history != [] {
      StoredIsTidy(history[..|history| - 1]);
      SavedIsTidy(Stored(history[..|history| - 1]), history[|history| - 1]);
    }
  }

  /** So sorting and cutting again for display shows the cell as it is. */
  lemma DisplayShowsStored(history: seq<Recent>)
    ensures Displayed(Stored(history)) == Stored(history)
  {
    StoredIsTidy(history);
    SortedStays(Stored(history));
  }

  // ---------------------------------------------------------------------------------------------
  // When a save is kept
  // ---------------------------------------------------------------------------------------------

  /** How many entries were used after `time`. */
  function Newer(entries: seq<Recent>, time: int): nat {
    if entries == [] then 0
    else
      var n := |entries| - 1;
      Newer(entries[..n], time) + if entries[n].lastUsed > time then 1 else 0
  }

  lemma {:induction false} InsertBehind(front: seq<Recent>, back: seq<Recent>, x: Recent)
    requires front != [] && front[|front| - 1].lastUsed >= x.lastUsed
    ensures Insert(front + back, x) == front + Insert(back, x)
    decreases |back|
  {
    if back == [] {
      assert front + back == front;
    } else {
      var n := |back| - 1;
      assert (front + back)[..|front| + n] == front + back[..n];
      if back[n].lastUsed < x.lastUsed {
        InsertBehind(front, back[..n], x);
      }
    }
  }

  lemma {:induction false} InsertBefore(front: seq<Recent>, back: seq<Recent>, x: Recent, time: int)
    requires Newer(back, time) == 0 && x.lastUsed > time
    ensures Insert(front + back, x) == Insert(front, x) + back
    decreases |back|
  {
    if back == [] {
      assert front + back == front;
    } else {
      var n := |back| - 1;
      assert (front + back)[..|front| + n] == front + back[..n];
      InsertBefore(front, back[..n], x, time);
      assert back[..n] + [back[n]] == back;
    }
  }

  lemma {:induction false} InsertCounts(entries: seq<Recent>, x: Recent, time: int)
    ensures |Insert(entries, x)| == |entries| + 1
    ensures Newer(Insert(entries, x), time) == Newer(entries, time) + if x.lastUsed > time then 1 else 0
  {
    assert (entries + [x])[..|entries|] == entries;
    if entries != [] && entries[|entries| - 1].lastUsed < x.lastUsed {
      var before, y := entries[..|entries| - 1], entries[|entries| - 1];
      InsertCounts(before, x, time);
      assert (Insert(before, x) + [y])[..|Insert(before, x)|] == Insert(before, x);
    }
  }

  lemma {:induction false} HeadCounts(r: Recent, entries: seq<Recent>)
    ensures Newer([r] + entries, r.lastUsed) == Newer(entries, r.lastUsed)
  {
    if entries == [] {
      assert [r] + entries == [r] && [r][..0] == [];
    } else {
      var n := |entries| - 1;
      HeadCounts(r, entries[..n]);
      assert ([r] + entries)[..n + 1] == [r] + entries[..n];
    }
  }

  /** `sorted` holds the newer entries, then `r`, then the rest. */
  predicate SortedAround(sorted: seq<Recent>, front: seq<Recent>, r: Recent, back: seq<Recent>) {
    && sorted == front + ([r] + back)
    && |front| == Newer(front, r.lastUsed) && Newer(back, r.lastUsed) == 0
  }

  lemma InsertAround(sorted: seq<Recent>, front: seq<Recent>, r: Recent, back: seq<Recent>, x: Recent)
    requires SortedAround(sorted, front, r, back)
    ensures if x.lastUsed > r.lastUsed then SortedAround(Insert(sorted, x), Insert(front, x), r, back)
            else SortedAround(Insert(sorted, x), front, r, Insert(back, x))
  {
    if x.lastUsed > r.lastUsed {
      HeadCounts(r, back);
      InsertBefore(front, [r] + back, x, r.lastUsed);
      InsertCounts(front, x, r.lastUsed);
    } else {
      assert front + ([r] + back) == (front + [r]) + back;
      InsertBehind(front + [r], back, x);
      InsertCounts(back, x, r.lastUsed);
      assert (front + [r]) + Insert(back, x) == front + ([r] + Insert(back, x));
    }
  }

  /** The first entry sorts behind exactly the newer ones. */
  lemma {:induction false} HeadLandsBehindNewer(r: Recent, others: seq<Recent>)
    returns (front: seq<Recent>, back: seq<Recent>)
    requires !HasPath(others, r.path)
    ensures SortedAround(SortByRecency([r] + others), front, r, back)
    ensures |front| == Newer(others, r.lastUsed) && !HasPath(front, r.path)
  {
    if others == [] {
      front, back := [], [];
      assert [r] + others == [r] && [r][..0] == [];
    } else {
      var n := |others| - 1;
      front, back := HeadLandsBehindNewer(r, others[..n]);
      assert ([r] + others)[..n + 1] == [r] + others[..n];
      InsertAround(SortByRecency([r] + others[..n]), front, r, back, others[n]);
      InsertPaths(front, others[n], r.path);
      InsertCounts(front, others[n], r.lastUsed);
      if others[n].lastUsed > r.lastUsed {
        front := Insert(front, others[n]);
      } else {
        back := Insert(back, others[n]);
      }
    }
  }

  lemma CutKeeps(front: seq<Recent>, r: Recent, back: seq<Recent>)
    requires |front| < MAX_RECENT_WORKSPACES
    ensures HasPath(Cut(front + ([r] + back)), r.path)
  {
    var cut := Cut(front + ([r] + back));
    var rest := cut[|front| + 1..];
    assert cut == (front + [r]) + rest;
    HasPathSplits(front + [r], rest, r.path);
    HasPathSnoc(front, r, r.path);
  }

  lemma CutDrops(front: seq<Recent>, back: seq<Recent>, path: string)
    requires |front| >= MAX_RECENT_WORKSPACES && !HasPath(front, path)
    ensures !HasPath(Cut(front + back), path)
  {
    CutIsPrefix(front);
    assert Cut(front + back) == Cut(front);
    HasPathSplits(Cut(front), front[|Cut(front)|..], path);
  }

  /** A save keeps its own path exactly when fewer than five other entries are newer than it. */
  lemma SaveIsKeptIffFewAreNewer(stored: seq<Recent>, r: Recent)
    ensures HasPath(Saved(stored, r), r.path) <==> Newer(Without(stored, r.path), r.lastUsed) < 5
  {
    WithoutMeans(stored, r.path, r.path);
    var front, back := HeadLandsBehindNewer(r, Without(stored, r.path));
    if |front| < MAX_RECENT_WORKSPACES {
      CutKeeps(front, r, back);
    } else {
      CutDrops(front, [r] + back, r.path);
    }
  }

  // ---------------------------------------------------------------------------------------------
  // The unbounded list
  // ---------------------------------------------------------------------------------------------

  /** The list without a bound: a save moves its path to the front. */
  function Recency(history: seq<Recent>): seq<Recent> {
    if history == [] then []
    else
      var r := history[|history| - 1];
      [r] + Without(Recency(history[..|history| - 1]), r.path)
  }

  /** The index of the last save of a path, or -1. */
  function LastSave(history: seq<Recent>, path: string): (at: int)
    ensures -1 <= at < |history|
  {
    if history == [] then -1
    else if history[|history| - 1].path == path then |history| - 1
    else LastSave(history[..|history| - 1], path)
  }

  /** The entries are last saves of their paths, all later than `floor`, from the last to the first. */
  predicate LatestFirst(history: seq<Recent>, entries: seq<Recent>, floor: int)
    decreases |entries|
  {
    entries == [] ||
    (var e := entries[|entries| - 1];
     var at := LastSave(history, e.path);
     at >= 0 && at > floor && history[at] == e && LatestFirst(history, entries[..|entries| - 1], at))
  }

  lemma {:induction false} LowerFloor(history: seq<Recent>, entries: seq<Recent>, path: string, floor: int, lower: int)
    requires LatestFirst(history, entries, floor) && lower <= floor
    ensures LatestFirst(history, Without(entries, path), lower)
    decreases |entries|
  {
    if entries != [] {
      var n := |entries| - 1;
      var at := LastSave(history, entries[n].path);
      var kept := Without(entries[..n], path);
      if entries[n].path == path {
        LowerFloor(history, entries[..n], path, at, lower);
      } else {
        LowerFloor(history, entries[..n], path, at, at);
        assert (kept + [entries[n]])[..|kept|] == kept;
      }
    }
  }

  lemma {:induction false} MoveToFront(history: seq<Recent>, r: Recent, entries: seq<Recent>, floor: int)
    requires LatestFirst(history, entries, floor) && !HasPath(entries, r.path) && floor < |history|
    ensures LatestFirst(history + [r], [r] + entries, floor)
    decreases |entries|
  {
    var more := history + [r];
    assert more[..|history|] == history && more[|history|] == r;
    if entries == [] {
      assert [r] + entries == [r] && [r][..0] == [];
    } else {
      var n := |entries| - 1;
      var at := LastSave(history, entries[n].path);
      MoveToFront(history, r, entries[..n], at);
      assert ([r] + entries)[..n + 1] == [r] + entries[..n];
      assert LastSave(more, entries[n].path) == at && more[at] == history[at];
    }
  }

  lemma {:induction false} RecencyIsLatestFirst(history: seq<Recent>)
    ensures LatestFirst(history, Recency(history), -1)
  {
    if history != [] {
      var before, r := history[..|history| - 1], history[|history| - 1];
      RecencyIsLatestFirst(before);
      LowerFloor(before, Recency(before), r.path, -1, -1);
      WithoutMeans(Recency(before), r.path, r.path);
      MoveToFront(before, r, Without(Recency(before), r.path), -1);
      assert before + [r] == history;
    }
  }

  lemma {:induction false} RecencyHoldsSaves(history: seq<Recent>, path: string)
    ensures HasPath(Recency(history), path) <==> HasPath(history, path)
  {
    if history != [] {
      var before, r := history[..|history| - 1], history[|history| - 1];
      RecencyHoldsSaves(before, path);
      WithoutMeans(Recency(before), r.path, path);
      HasPathSplits([r], Without(Recency(before), r.path), path);
    }
  }

  /**
   * The unbounded list is the distinct paths of the reversed history: it holds exactly the paths that
   * were saved, each as its last save, ordered by those saves from the last to the first.
   */
  lemma RecencyMeans(history: seq<Recent>, path: string)
    ensures LatestFirst(history, Recency(history), -1)
    ensures HasPath(Recency(history), path) <==> HasPath(history, path)
  {
    RecencyIsLatestFirst(history);
    RecencyHoldsSaves(history, path);
  }

  predicate ClockRuns(history: seq<Recent>) {
    forall i, j :: 0 <= i < j < |history| ==> history[i].lastUsed <= history[j].lastUsed
  }

  lemma {:induction false} LatestFirstIsTidy(history: seq<Recent>, entries: seq<Recent>, floor: int, path: string)
    requires LatestFirst(history, entries, floor)
    ensures HasPath(entries, path) ==> LastSave(history, path) > floor
    ensures DistinctPaths(entries)
    ensures ClockRuns(history) ==> Descending(entries)
    decreases |entries|
  {
    if entries != [] {
      var n := |entries| - 1;
      var at := LastSave(history, entries[n].path);
      LatestFirstIsTidy(history, entries[..n], at, path);
      LatestFirstIsTidy(history, entries[..n], at, entries[n].path);
      if n > 0 && ClockRuns(history) {
        var previous := LastSave(history, entries[n - 1].path);
        assert entries[..n][n - 1] == entries[n - 1];
        assert at < previous;
      }
    }
  }

  lemma {:induction false} WithoutSplits(a: seq<Recent>, b: seq<Recent>, path: string)
    ensures Without(a + b, path) == Without(a, path) + Without(b, path)
    decreases |b|
  {
    if b == [] {
      assert a + b == a;
    } else {
      var n := |b| - 1;
      WithoutSplits(a, b[..n], path);
      assert (a + b)[..|a| + n] == a + b[..n] && (a + b)[|a| + n] == b[n];
    }
  }

  /** A save that sees only the cut list does what it would do to the whole one. */
  lemma SaveMovesToFront(all: seq<Recent>, r: Recent)
    requires DistinctPaths(all) && Descending([r] + Without(all, r.path))
    ensures Saved(Cut(all), r) == Cut([r] + Without(all, r.path))
  {
    CutIsPrefix(all);
    var left, dropped := Cut(all), all[|Cut(all)|..];
    WithoutSplits(left, dropped, r.path);
    HasPathSplits(left, dropped, r.path);
    WithoutMeans(left, r.path, r.path);
    CutCovers([r] + Without(left, r.path), Without(dropped, r.path), dropped == []);
    assert [r] + Without(all, r.path) == [r] + Without(left, r.path) + Without(dropped, r.path);
    SortedStays([r] + Without(left, r.path));
  }

  lemma CutCovers(kept: seq<Recent>, tail: seq<Recent>, whole: bool)
    requires if whole then tail == [] else |kept| >= MAX_RECENT_WORKSPACES
    ensures Cut(kept + tail) == Cut(kept)
    ensures Descending(kept + tail) ==> Descending(kept)
  {
    assert forall i :: 0 <= i < |kept| ==> (kept + tail)[i] == kept[i];
    if whole {
      assert kept + tail == kept;
    }
  }

  /**
   * Under a clock that does not go back, the cell holds the first five entries of the unbounded list,
   * although every save sees only the entries that an earlier save kept.
   */
  lemma {:induction false} StoredIsRecencyCut(history: seq<Recent>)
    requires ClockRuns(history)
    ensures Stored(history) == Cut(Recency(history))
    ensures Cut(Recency(history)) == if |Recency(history)| <= 5 then Recency(history) else Recency(history)[..5]
  {
    if history != [] {
      var before, r := history[..|history| - 1], history[|history| - 1];
      StoredIsRecencyCut(before);
      RecencyIsLatestFirst(history);
      RecencyIsLatestFirst(before);
      LatestFirstIsTidy(history, Recency(history), -1, r.path);
      LatestFirstIsTidy(before, Recency(before), -1, r.path);
      SaveMovesToFront(Recency(before), r);
    }
  }

  // ---------------------------------------------------------------------------------------------
  // What is saved
  // ---------------------------------------------------------------------------------------------

  /** An entry is named by what follows the last slash of its path, or by the whole path without one. */
  lemma VisitMeans(path: string, now: int)
    ensures var r := Visit(path, now);
            && r.path == path && r.lastUsed == now && '/' !in r.name
            && (path == r.name || exists front :: path == front + "/" + r.name)
  {
    var parts := Split(path, '/');
    PartsHoldNoSeparator(path, '/');
    JoinSplit(path, '/');
    if |parts| > 1 {
      var front := JoinLast(parts);
      assert path == front + "/" + Visit(path, now).name;
    }
  }

  lemma {:induction false} JoinLast(parts: seq<string>) returns (front: string)
    requires |parts| > 1
    ensures Join(parts, '/') == front + "/" + parts[|parts| - 1]
  {
    if |parts| == 2 {
      front := parts[0];
    } else {
      var rest := JoinLast(parts[1..]);
      front := parts[0] + "/" + rest;
    }
  }

  function OtherThan(path: string): Recent -> bool {
    (r: Recent) => r.path != path
  }

  /** What a save keeps of the old list is its entries with other paths, in their order. */
  lemma WithoutSelects(entries: seq<Recent>, path: string)
    ensures IsSelection(entries, Without(entries, path), OtherThan(path))
  {
    WithoutIsSelected(entries, path);
    SelectedIsSelection(entries, OtherThan(path));
  }

  lemma {:induction false} WithoutIsSelected(entries: seq<Recent>, path: string)
    ensures Without(entries, path) == Selected(entries, OtherThan(path))
  {
    if entries != [] {
      WithoutIsSelected(entries[..|entries| - 1], path);
      SelectedOneMore(entries, OtherThan(path));
    }
  }
}
