/**
 * The per-publisher sliding-window limiter on publish requests.
 *
 * The limiter keeps only a pruned list per publisher. What it decides is stated against the whole
 * history of requests: which were granted, and how many of those lie in a window.
 */
module RateLimiter {

  const RATE_LIMIT_MAX_REQUESTS := 10
  const RATE_LIMIT_WINDOW_MS := 60 * 1000

  type Store = map<string, seq<int>>

  /** `timestamps.filter((ts) => ts > start)` */
  function After(timestamps: seq<int>, start: int): seq<int> {
    if timestamps == [] then []
    else (if timestamps[0] > start then [timestamps[0]] else []) + After(timestamps[1..], start)
  }

  function Kept(store: Store, user: string, now: int): seq<int> {
    After(if user in store then store[user] else [], now - RATE_LIMIT_WINDOW_MS)
  }

  predicate Allows(store: Store, user: string, now: int) {
    |Kept(store, user, now)| < RATE_LIMIT_MAX_REQUESTS
  }

  function Checked(store: Store, user: string, now: int): Store {
    store[user := Kept(store, user, now) + if Allows(store, user, now) then [now] else []]
  }

  class Limiter {
    var store: Store

    constructor ()
      ensures store == map[]
    {
      store := map[];
    }

    method CheckRateLimit(user: string, now: int) returns (allowed: bool)
      modifies this
      ensures allowed == Allows(old(store), user, now)
      ensures store == Checked(old(store), user, now)
      ensures var kept := After(if user in old(store) then old(store)[user] else [], now - 60_000);
              && allowed == (|kept| < 10)
              && store == old(store)[user := kept + if allowed then [now] else []]
    {
      var windowStart := now - RATE_LIMIT_WINDOW_MS;
      if user !in store {
        store := store[user := []];
      }
      var timestamps := Prune(store[user], windowStart);
      store := store[user := timestamps];
      if |timestamps| >= RATE_LIMIT_MAX_REQUESTS {
        assert timestamps + [] == timestamps;
        return false;
      }
      store := store[user := timestamps + [now]];
      return true;
    }
  }

  method Prune(timestamps: seq<int>, start: int) returns (kept: seq<int>)
    ensures kept == After(timestamps, start)
  {
    kept := [];
    for i := 0 to |timestamps|
      invariant kept + After(timestamps[i..], start) == After(timestamps, start)
    {
      if timestamps[i] > start {
        kept := kept + [timestamps[i]];
      }
    }
  }

  // ---------------------------------------------------------------------------------------------
  // Against the whole history
  // ---------------------------------------------------------------------------------------------

  datatype Request = Request(user: string, now: int)

  predicate ClockNeverGoesBack(h: seq<Request>) {
    forall i, j :: 0 <= i < j < |h| ==> h[i].now <= h[j].now
  }

  function StoreAfter(h: seq<Request>): Store {
    if h == [] then map[]
    else Checked(StoreAfter(h[..|h| - 1]), h[|h| - 1].user, h[|h| - 1].now)
  }

  /** Every timestamp ever granted to `user`, oldest first. */
  function Granted(h: seq<Request>, user: string): seq<int> {
    if h == [] then []
    else
      var r := h[|h| - 1];
      Granted(h[..|h| - 1], user)
      + if r.user == user && Allows(StoreAfter(h[..|h| - 1]), user, r.now) then [r.now] else []
  }

  /** The granted timestamps in the half-open window (low, high]. */
  function Within(timestamps: seq<int>, low: int, high: int): seq<int> {
    if timestamps == [] then []
    else (if low < timestamps[0] <= high then [timestamps[0]] else []) + Within(timestamps[1..], low, high)
  }

  lemma {:induction false} AfterAppend(a: seq<int>, b: seq<int>, start: int)
    ensures After(a + b, start) == After(a, start) + After(b, start)
  {
    if a == [] {
      assert a + b == b;
    } else {
      assert (a + b)[1..] == a[1..] + b;
      AfterAppend(a[1..], b, start);
    }
  }

  lemma {:induction false} AfterTwice(ts: seq<int>, early: int, late: int)
    requires early <= late
    ensures After(After(ts, early), late) == After(ts, late)
  {
    if ts != [] {
      AfterTwice(ts[1..], early, late);
      AfterAppend(if ts[0] > early then [ts[0]] else [], After(ts[1..], early), late);
    }
  }

  lemma {:induction false} WithinAppend(a: seq<int>, b: seq<int>, low: int, high: int)
    ensures Within(a + b, low, high) == Within(a, low, high) + Within(b, low, high)
  {
    if a == [] {
      assert a + b == b;
    } else {
      assert (a + b)[1..] == a[1..] + b;
      WithinAppend(a[1..], b, low, high);
    }
  }

  lemma {:induction false} WithinIsAfter(ts: seq<int>, low: int, high: int)
    requires forall i :: 0 <= i < |ts| ==> ts[i] <= high
    ensures Within(ts, low, high) == After(ts, low)
  {
    if ts != [] {
      WithinIsAfter(ts[1..], low, high);
    }
  }

  lemma {:induction false} WithinAtMostAfter(ts: seq<int>, low: int, high: int, start: int)
    requires start <= low
    ensures |Within(ts, low, high)| <= |After(ts, start)|
  {
    if ts != [] {
      WithinAtMostAfter(ts[1..], low, high, start);
    }
  }

  lemma {:induction false} GrantsAreRequests(h: seq<Request>, user: string)
    ensures forall t :: t in Granted(h, user) ==> exists i :: 0 <= i < |h| && h[i].now == t
  {
    if h != [] {
      var before := h[..|h| - 1];
      GrantsAreRequests(before, user);
      forall t | t in Granted(h, user) ensures exists i :: 0 <= i < |h| && h[i].now == t {
        if t in Granted(before, user) {
          var i :| 0 <= i < |before| && before[i].now == t;
          assert h[i].now == t;
        } else {
          assert h[|h| - 1].now == t;
        }
      }
    }
  }

  lemma ClockOfPrefix(h: seq<Request>, r: Request)
    requires ClockNeverGoesBack(h + [r])
    ensures ClockNeverGoesBack(h)
    ensures forall i :: 0 <= i < |h| ==> h[i].now <= r.now
  {
    var all := h + [r];
    assert forall i :: 0 <= i < |h| ==> all[i] == h[i];
    assert all[|h|] == r;
    forall i, j | 0 <= i < j < |h| ensures h[i].now <= h[j].now {
      assert all[i].now <= all[j].now;
    }
  }

  lemma OneMore(h: seq<Request>, r: Request, user: string)
    ensures StoreAfter(h + [r]) == Checked(StoreAfter(h), r.user, r.now)
    ensures Granted(h + [r], user) ==
            Granted(h, user) + if r.user == user && Allows(StoreAfter(h), user, r.now) then [r.now] else []
  {
    assert (h + [r])[..|h + [r]| - 1] == h;
  }

  /** A request of the publisher's own prunes and grants on both sides alike. */
  lemma OwnRequestKeeps(h: seq<Request>, r: Request, now: int)
    requires r.now <= now
    requires Kept(StoreAfter(h), r.user, r.now) == After(Granted(h, r.user), r.now - RATE_LIMIT_WINDOW_MS)
    ensures Kept(StoreAfter(h + [r]), r.user, now) == After(Granted(h + [r], r.user), now - RATE_LIMIT_WINDOW_MS)
  {
    var start := now - RATE_LIMIT_WINDOW_MS;
    var grant := if Allows(StoreAfter(h), r.user, r.now) then [r.now] else [];
    OneMore(h, r, r.user);
    AfterAppend(Kept(StoreAfter(h), r.user, r.now), grant, start);
    AfterAppend(Granted(h, r.user), grant, start);
    AfterTwice(Granted(h, r.user), r.now - RATE_LIMIT_WINDOW_MS, start);
  }

  lemma OthersRequestKeeps(h: seq<Request>, r: Request, user: string, now: int)
    requires r.user != user
    ensures Kept(StoreAfter(h + [r]), user, now) == Kept(StoreAfter(h), user, now)
    ensures Granted(h + [r], user) == Granted(h, user)
  {
    OneMore(h, r, user);
    assert Granted(h, user) + [] == Granted(h, user);
  }

  lemma ClockSkipping(h: seq<Request>, r: Request, last: Request)
    requires ClockNeverGoesBack(h + [r] + [last])
    ensures ClockNeverGoesBack(h + [r]) && ClockNeverGoesBack(h + [last]) && r.now <= last.now
  {
    var all, less := h + [r] + [last], h + [last];
    ClockOfPrefix(h + [r], last);
    assert (h + [r])[|h|] == r;
    forall i, j | 0 <= i < j < |less| ensures less[i].now <= less[j].now {
      assert all[i] == less[i] && all[if j < |h| then j else j + 1] == less[j];
    }
  }

  /** The pruned list is the whole granted history cut to the window that ends now. */
  lemma {:induction false} KeptIsHistoryInWindow(h: seq<Request>, user: string, now: int)
    requires ClockNeverGoesBack(h + [Request(user, now)])
    ensures Kept(StoreAfter(h), user, now) == After(Granted(h, user), now - 60_000)
  {
    if h != [] {
      var before, r := h[..|h| - 1], h[|h| - 1];
      assert before + [r] == h;
      ClockSkipping(before, r, Request(user, now));
      if r.user == user {
        KeptIsHistoryInWindow(before, user, r.now);
        OwnRequestKeeps(before, r, now);
      } else {
        KeptIsHistoryInWindow(before, user, now);
        OthersRequestKeeps(before, r, user, now);
      }
    }
  }

  lemma RoomBeforeGrant(h: seq<Request>, user: string, now: int, end: int)
    requires ClockNeverGoesBack(h + [Request(user, now)])
    requires Allows(StoreAfter(h), user, now)
    requires now <= end
    ensures |Within(Granted(h, user), end - RATE_LIMIT_WINDOW_MS, end)| < RATE_LIMIT_MAX_REQUESTS
  {
    KeptIsHistoryInWindow(h, user, now);
    WithinAtMostAfter(Granted(h, user), end - RATE_LIMIT_WINDOW_MS, end, now - RATE_LIMIT_WINDOW_MS);
  }

  /** No window of 60 000 ms, open at its start, ever holds more than ten grants to one publisher. */
  lemma {:induction false} AtMostTenPerWindow(h: seq<Request>, user: string, end: int)
    requires ClockNeverGoesBack(h)
    ensures |Within(Granted(h, user), end - 60_000, end)| <= 10
  {
    if h != [] {
      var before, r := h[..|h| - 1], h[|h| - 1];
      var w := RATE_LIMIT_WINDOW_MS;
      assert before + [r] == h;
      ClockOfPrefix(before, r);
      OneMore(before, r, user);
      AtMostTenPerWindow(before, user, end);
      if r.user == user && Allows(StoreAfter(before), user, r.now) {
        WithinAppend(Granted(before, user), [r.now], end - w, end);
        if end - w < r.now <= end {
          RoomBeforeGrant(before, user, r.now, end);
        }
      } else {
        assert Granted(before, user) + [] == Granted(before, user);
      }
    }
  }

  /** A request is turned away exactly when ten grants lie in the window that ends with it. */
  lemma RejectedIffWindowFull(h: seq<Request>, user: string, now: int)
    requires ClockNeverGoesBack(h + [Request(user, now)])
    ensures !Allows(StoreAfter(h), user, now) <==>
            |Within(Granted(h, user), now - 60_000, now)| == 10
  {
    var grants := Granted(h, user);
    ClockOfPrefix(h, Request(user, now));
    KeptIsHistoryInWindow(h, user, now);
    GrantsAreRequests(h, user);
    forall k | 0 <= k < |grants| ensures grants[k] <= now {
      assert grants[k] in grants;
    }
    WithinIsAfter(grants, now - RATE_LIMIT_WINDOW_MS, now);
    AtMostTenPerWindow(h, user, now);
  }

  function Only(h: seq<Request>, user: string): seq<Request> {
    if h == [] then []
    else Only(h[..|h| - 1], user) + if h[|h| - 1].user == user then [h[|h| - 1]] else []
  }

  /** Publishers do not affect one another: dropping everyone else's requests changes nothing. */
  lemma {:induction false} OthersDoNotMatter(h: seq<Request>, user: string)
    ensures Granted(h, user) == Granted(Only(h, user), user)
    ensures forall now :: Kept(StoreAfter(h), user, now) == Kept(StoreAfter(Only(h, user)), user, now)
    ensures forall now :: Allows(StoreAfter(h), user, now) == Allows(StoreAfter(Only(h, user)), user, now)
  {
    if h != [] {
      var before, r := h[..|h| - 1], h[|h| - 1];
      OthersDoNotMatter(before, user);
      assert before + [r] == h;
      OneMore(before, r, user);
      if r.user == user {
        assert Only(h, user) == Only(before, user) + [r];
        OneMore(Only(before, user), r, user);
        assert Allows(StoreAfter(before), user, r.now) == Allows(StoreAfter(Only(before, user)), user, r.now);
        assert StoreAfter(h)[user] == StoreAfter(Only(h, user))[user];
      } else {
        assert Only(h, user) == Only(before, user);
        assert Granted(h, user) == Granted(before, user);
      }
    }
  }

  function Burst(user: string, now: int, n: nat): seq<Request> {
    if n == 0 then [] else Burst(user, now, n - 1) + [Request(user, now)]
  }

  function Times(now: int, n: nat): seq<int> {
    if n == 0 then [] else Times(now, n - 1) + [now]
  }

  lemma {:induction false} TimesAre(now: int, n: nat)
    ensures |Times(now, n)| == n && forall i :: 0 <= i < n ==> Times(now, n)[i] == now
  {
    if n > 0 {
      TimesAre(now, n - 1);
    }
  }

  lemma ClockRepeats(h: seq<Request>, r: Request)
    requires ClockNeverGoesBack(h + [r])
    ensures ClockNeverGoesBack(h + [r] + [r])
  {
    var all := h + [r] + [r];
    assert all[|h|] == r && all[|h| + 1] == r;
    assert forall i :: 0 <= i <= |h| ==> all[i] == (h + [r])[i];
  }

  lemma BurstSnoc(h: seq<Request>, user: string, now: int, n: nat)
    requires n > 0
    ensures h + Burst(user, now, n) == h + Burst(user, now, n - 1) + [Request(user, now)]
  {
  }

  lemma TimesSnoc(ts: seq<int>, now: int, n: nat)
    requires n > 0
    ensures ts + Times(now, n) == ts + Times(now, n - 1) + [now]
    ensures Times(now, n) == Times(now, n - 1) + [now]
  {
  }

  /** After `all`, the publisher holds exactly `grants`, of which `recent` lie in the window that ends now. */
  predicate Holds(all: seq<Request>, user: string, now: int, grants: seq<int>, recent: seq<int>) {
    && ClockNeverGoesBack(all + [Request(user, now)])
    && Granted(all, user) == grants
    && After(grants, now - RATE_LIMIT_WINDOW_MS) == recent
  }

  lemma GrantOne(all: seq<Request>, user: string, now: int, grants: seq<int>, recent: seq<int>)
    requires Holds(all, user, now, grants, recent) && |recent| < RATE_LIMIT_MAX_REQUESTS
    ensures Holds(all + [Request(user, now)], user, now, grants + [now], recent + [now])
  {
    KeptIsHistoryInWindow(all, user, now);
    OneMore(all, Request(user, now), user);
    AfterAppend(grants, [now], now - RATE_LIMIT_WINDOW_MS);
    ClockRepeats(all, Request(user, now));
  }

  lemma BurstStep(h: seq<Request>, user: string, now: int, grants: seq<int>, n: nat)
    requires 0 < n <= RATE_LIMIT_MAX_REQUESTS
    requires Holds(h + Burst(user, now, n - 1), user, now, grants + Times(now, n - 1), Times(now, n - 1))
    ensures Holds(h + Burst(user, now, n), user, now, grants + Times(now, n), Times(now, n))
  {
    TimesAre(now, n - 1);
    BurstSnoc(h, user, now, n);
    TimesSnoc(grants, now, n);
    GrantOne(h + Burst(user, now, n - 1), user, now, grants + Times(now, n - 1), Times(now, n - 1));
  }

  /** What one publisher holds after a burst of n that started from `grants`, none of them recent. */
  predicate HoldsBurst(h: seq<Request>, user: string, now: int, grants: seq<int>, n: nat)
    decreases n
  {
    Holds(h + Burst(user, now, n), user, now, grants + Times(now, n), Times(now, n))
    && (n > 0 ==> HoldsBurst(h, user, now, grants, n - 1))
  }

  lemma EmptyBurst(h: seq<Request>, user: string, now: int, grants: seq<int>)
    requires Holds(h, user, now, grants, [])
    ensures HoldsBurst(h, user, now, grants, 0)
  {
    assert h + Burst(user, now, 0) == h && grants + Times(now, 0) == grants && Times(now, 0) == [];
  }

  lemma NextOfBurst(h: seq<Request>, user: string, now: int, grants: seq<int>, n: nat)
    requires 0 < n <= RATE_LIMIT_MAX_REQUESTS && HoldsBurst(h, user, now, grants, n - 1)
    ensures HoldsBurst(h, user, now, grants, n)
  {
    BurstStep(h, user, now, grants, n);
  }

  /** After a quiet window a publisher gets ten requests at once, each of them granted. */
  lemma {:induction false} QuietWindowGrantsTen(h: seq<Request>, user: string, now: int, grants: seq<int>, n: nat)
    requires n <= 10
    requires Holds(h, user, now, grants, [])
    ensures HoldsBurst(h, user, now, grants, n)
    decreases n
  {
    if n == 0 {
      EmptyBurst(h, user, now, grants);
    } else {
      QuietWindowGrantsTen(h, user, now, grants, n - 1);
      NextOfBurst(h, user, now, grants, n);
    }
  }

  lemma TwoBursts(user: string, start: int, n: nat)
    requires n <= RATE_LIMIT_MAX_REQUESTS
    ensures var end := start + RATE_LIMIT_WINDOW_MS;
            Holds(Burst(user, start, n) + Burst(user, end, n), user, end,
                  Times(start, n) + Times(end, n), Times(end, n))
  {
    var end := start + RATE_LIMIT_WINDOW_MS;
    OneBurst(user, start, n);
    QuietWindowGrantsTen(Burst(user, start, n), user, end, Times(start, n), n);
  }

  lemma OneBurst(user: string, start: int, n: nat)
    requires n <= RATE_LIMIT_MAX_REQUESTS
    ensures Holds(Burst(user, start, n), user, start + RATE_LIMIT_WINDOW_MS, Times(start, n), [])
  {
    QuietWindowGrantsTen([], user, start, [], n);
    assert [] + Burst(user, start, n) == Burst(user, start, n);
    assert [] + Times(start, n) == Times(start, n);
    TimesAre(start, n);
    AfterNone(Times(start, n), start);
    ClockLater(Burst(user, start, n), Request(user, start), Request(user, start + RATE_LIMIT_WINDOW_MS));
  }

  lemma ClockLater(h: seq<Request>, r: Request, later: Request)
    requires ClockNeverGoesBack(h + [r]) && r.now <= later.now
    ensures ClockNeverGoesBack(h + [later])
  {
    ClockOfPrefix(h, r);
    assert (h + [later])[|h|] == later;
  }

  /** The granted timestamps at one instant. */
  function AtInstant(timestamps: seq<int>, instant: int): seq<int> {
    Within(timestamps, instant - 1, instant)
  }

  /** The granted timestamps in the closed window [low, high]. */
  function WithinClosed(timestamps: seq<int>, low: int, high: int): seq<int> {
    Within(timestamps, low - 1, high)
  }

  lemma {:induction false} ClosedSplits(ts: seq<int>, low: int, high: int)
    requires low <= high
    ensures |WithinClosed(ts, low, high)| == |Within(ts, low, high)| + |AtInstant(ts, low)|
  {
    if ts != [] {
      ClosedSplits(ts[1..], low, high);
    }
  }

  lemma {:induction false} InstantIsInWindow(ts: seq<int>, instant: int, start: int)
    requires start < instant
    ensures |AtInstant(ts, instant)| <= |Within(ts, start, instant)|
  {
    if ts != [] {
      InstantIsInWindow(ts[1..], instant, start);
    }
  }

  /**
   * A window of 60 000 ms closed at both ends holds the grants of the half-open one and those at its first
   * instant: never more than twenty, and more than ten exactly when the latter exceed the room left.
   */
  lemma ClosedWindowHolds(h: seq<Request>, user: string, start: int)
    requires ClockNeverGoesBack(h)
    ensures var grants, end := Granted(h, user), start + 60_000;
            var open, first := |Within(grants, start, end)|, |AtInstant(grants, start)|;
            && |WithinClosed(grants, start, end)| == open + first <= 20
            && (|WithinClosed(grants, start, end)| > 10
                <==> first > 10 - open)
  {
    var grants, end := Granted(h, user), start + RATE_LIMIT_WINDOW_MS;
    ClosedSplits(grants, start, end);
    AtMostTenPerWindow(h, user, end);
    AtMostTenPerWindow(h, user, start);
    InstantIsInWindow(grants, start, start - RATE_LIMIT_WINDOW_MS);
  }

  /** The window must be open at one end: two bursts exactly 60 000 ms apart are both granted in full. */
  lemma ClosedWindowCanHoldTwenty(user: string, start: int)
    ensures exists h :: ClockNeverGoesBack(h) && |Granted(h, user)| == 20
              && forall t :: t in Granted(h, user) ==> start <= t <= start + 60_000
  {
    var end := start + RATE_LIMIT_WINDOW_MS;
    var n: nat :| n == RATE_LIMIT_MAX_REQUESTS;
    TwoBursts(user, start, n);
    TimesAre(start, n);
    TimesAre(end, n);
    var h := Burst(user, start, n) + Burst(user, end, n);
    ClockOfPrefix(h, Request(user, end));
    assert |Granted(h, user)| == 2 * n;
    assert forall t :: t in Granted(h, user) ==> t == start || t == end;
  }

  lemma {:induction false} AfterNone(ts: seq<int>, start: int)
    requires forall i :: 0 <= i < |ts| ==> ts[i] <= start
    ensures After(ts, start) == []
  {
    if ts != [] {
      AfterNone(ts[1..], start);
    }
  }
}
