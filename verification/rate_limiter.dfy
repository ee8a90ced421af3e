/** The fixed-window rate limiter and the session-token helpers of
    lib/rate-limiter.ts. The limiter is an immutable value threaded through
    pure functions; the clock (`Date.now()`) is the explicit parameter `now`,
    in milliseconds. */
module RateLimiter {
  import opened Wrappers
  import opened Strings

  /** One window of one key. `walletAddress` is the lower-cased key itself. */
  datatype Entry = Entry(count: nat, resetTime: int, walletAddress: string)

  datatype Config = Config(maxRequests: nat, windowMs: nat)

  datatype Limiter = Limiter(cfg: Config, limits: map<string, Entry>)

  /** The answer of `checkLimit`. */
  datatype Decision = Decision(allowed: bool, remaining: int, resetTime: int)

  datatype Stats = Stats(totalWallets: nat, activeEntries: nat)

  const HourMs: nat := 60 * 60 * 1000
  const DayMs: nat := 24 * 60 * 60 * 1000

  /** The constructor's defaults: 100 requests per hour. */
  const DefaultConfig := Config(100, HourMs)
  /** `authenticatedUserLimiter`: 30 requests per day per key. */
  const AuthenticatedConfig := Config(30, DayMs)
  /** `regularUserLimiter`: 5 requests per day per key. */
  const RegularConfig := Config(5, DayMs)

  function NewLimiter(cfg: Config): (l: Limiter)
    ensures l.cfg == cfg && l.limits == map[]
    ensures Valid(l)
  {
    Limiter(cfg, map[])
  }

  /** What every reachable limiter satisfies: keys are lower case, an entry
      remembers its own key, and no count exceeds the limit. */
  predicate Valid(l: Limiter) {
    forall k :: k in l.limits ==>
      && IsLower(k)
      && l.limits[k].walletAddress == k
      && l.limits[k].count <= l.cfg.maxRequests
  }

  /** A window is over only once `now` is strictly past its reset time: at
      `now == resetTime` the old window still applies. */
  predicate Expired(e: Entry, now: int) {
    now > e.resetTime
  }

  /** The key has no window in force at `now`. */
  predicate NeedsReset(l: Limiter, key: string, now: int) {
    key !in l.limits || Expired(l.limits[key], now)
  }

  /** `checkLimit(walletAddress)` at time `now`: returns the new limiter and
      the decision. */
  function CheckLimit(l: Limiter, walletAddress: string, now: int): (r: (Limiter, Decision))
    ensures var key := Lower(walletAddress);
      && r.0.cfg == l.cfg
      && key in r.0.limits
      // nothing but the checked key changes
      && r.0.limits - {key} == l.limits - {key}
      // an absent or expired window restarts at `now` with count 0 before counting
      && (NeedsReset(l, key, now) ==>
            && r.1.resetTime == now + l.cfg.windowMs
            && r.0.limits[key].resetTime == now + l.cfg.windowMs
            && (r.1.allowed <==> l.cfg.maxRequests > 0))
      // a window in force keeps its reset time; the limit is judged on its count
      && (!NeedsReset(l, key, now) ==>
            && r.1.resetTime == l.limits[key].resetTime
            && (r.1.allowed <==> l.limits[key].count < l.cfg.maxRequests)
            && (r.1.allowed ==> r.0.limits[key].count == l.limits[key].count + 1)
            && (!r.1.allowed ==> r.0.limits[key] == l.limits[key]))
      // a denial reports nothing remaining; an allowance reports what is left
      && (!r.1.allowed ==> r.1.remaining == 0)
      && (r.1.allowed ==> r.1.remaining == l.cfg.maxRequests - r.0.limits[key].count >= 0)
      && r.0.limits[key].resetTime == r.1.resetTime
    ensures Valid(l) ==> Valid(r.0)
  {
    var key := Lower(walletAddress);
    LowerIdempotent(walletAddress);
    var entry :=
      if key !in l.limits || now > l.limits[key].resetTime
      then Entry(0, now + l.cfg.windowMs, key)
      else l.limits[key];
    var limits := l.limits[key := entry];
    if entry.count >= l.cfg.maxRequests then
      (Limiter(l.cfg, limits), Decision(false, 0, entry.resetTime))
    else
      var counted := entry.(count := entry.count + 1);
      (Limiter(l.cfg, limits[key := counted]),
       Decision(true, l.cfg.maxRequests - counted.count, counted.resetTime))
  }

  /** `getRemainingRequests(walletAddress)`: a read-only query. */
  function GetRemaining(l: Limiter, walletAddress: string, now: int): (r: int)
    ensures 0 <= r <= l.cfg.maxRequests
    ensures NeedsReset(l, Lower(walletAddress), now) ==> r == l.cfg.maxRequests
    ensures Valid(l) && !NeedsReset(l, Lower(walletAddress), now) ==>
      r == l.cfg.maxRequests - l.limits[Lower(walletAddress)].count
  {
    var key := Lower(walletAddress);
    if key !in l.limits || now > l.limits[key].resetTime then l.cfg.maxRequests
    else if l.cfg.maxRequests - l.limits[key].count > 0 then l.cfg.maxRequests - l.limits[key].count
    else 0
  }

  /** `cleanup()`: evicts exactly the expired windows. */
  function Cleanup(l: Limiter, now: int): (r: Limiter)
    ensures r.cfg == l.cfg
    ensures forall k :: k in r.limits <==> k in l.limits && !Expired(l.limits[k], now)
    ensures forall k :: k in r.limits ==> r.limits[k] == l.limits[k]
    ensures Valid(l) ==> Valid(r)
  {
    Limiter(l.cfg, map k | k in l.limits && !(now > l.limits[k].resetTime) :: l.limits[k])
  }

  /** `getStats()`: sweeps first, then reports the number of windows left. */
  function GetStats(l: Limiter, now: int): (r: (Limiter, Stats))
    ensures r.0.cfg == l.cfg
    ensures r.0.limits.Keys == set k | k in l.limits && !Expired(l.limits[k], now)
    ensures r.1.totalWallets == r.1.activeEntries == |r.0.limits|
    ensures forall k :: k in r.0.limits ==> r.0.limits[k] == l.limits[k]
  {
    var swept := Cleanup(l, now);
    (swept, Stats(|swept.limits|, |swept.limits|))
  }

  // -----------------------------------------------------------------------
  // Properties of the limiter
  // -----------------------------------------------------------------------

  /** Keys are case-insensitive: two spellings of one key are the same key. */
  lemma CaseInsensitive(l: Limiter, a: string, b: string, now: int)
    requires Lower(a) == Lower(b)
    ensures CheckLimit(l, a, now) == CheckLimit(l, b, now)
    ensures GetRemaining(l, a, now) == GetRemaining(l, b, now)
  {
  }

  /** The read-only query predicts the next check exactly: it is allowed iff
      something remains, and then reports one less. */
  lemma RemainingPredictsCheck(l: Limiter, walletAddress: string, now: int)
    requires Valid(l)
    ensures var d := CheckLimit(l, walletAddress, now).1;
      && (d.allowed <==> GetRemaining(l, walletAddress, now) > 0)
      && (d.allowed ==> d.remaining == GetRemaining(l, walletAddress, now) - 1)
  {
  }

  /** A sweep at `now` cannot be observed by any later check or query. */
  lemma CleanupUnobservable(l: Limiter, walletAddress: string, now: int, later: int)
    requires now <= later
    ensures CheckLimit(Cleanup(l, now), walletAddress, later).1 == CheckLimit(l, walletAddress, later).1
    ensures GetRemaining(Cleanup(l, now), walletAddress, later) == GetRemaining(l, walletAddress, later)
  {
  }

  /** Sweeping twice at one time is sweeping once. */
  lemma CleanupIdempotent(l: Limiter, now: int)
    ensures Cleanup(Cleanup(l, now), now) == Cleanup(l, now)
  {
  }

  /** Checks of one key at the given times, in order. */
  function CheckAll(l: Limiter, walletAddress: string, times: seq<int>): (r: (Limiter, seq<Decision>))
    ensures |r.1| == |times|
    decreases |times|
  {
    if times == [] then (l, [])
    else
      var first := CheckLimit(l, walletAddress, times[0]);
      var rest := CheckAll(first.0, walletAddress, times[1..]);
      (rest.0, [first.1] + rest.1)
  }

  /** The decisions of `CheckAll`, one per time. */
  function Decisions(l: Limiter, walletAddress: string, times: seq<int>): (ds: seq<Decision>)
    ensures |ds| == |times|
  {
    CheckAll(l, walletAddress, times).1
  }

  /** The decision for the check that finds `n` requests already counted in
      a window in force that ends at `resetTime`. */
  predicate CountedDecision(d: Decision, n: int, maxRequests: nat, resetTime: int) {
    && (d.allowed <==> n < maxRequests)
    && (d.allowed ==> d.remaining == maxRequests - n - 1)
    && (!d.allowed ==> d.remaining == 0)
    && d.resetTime == resetTime
  }

  /** Inside one window that already holds `c` requests, the i-th further
      check is allowed iff `c + i < maxRequests`, and then leaves
      `maxRequests - c - i - 1`. */
  lemma {:induction false} WindowRun(l: Limiter, walletAddress: string, times: seq<int>, c: nat)
    requires Lower(walletAddress) in l.limits
    requires l.limits[Lower(walletAddress)].count == c <= l.cfg.maxRequests
    requires forall i :: 0 <= i < |times| ==> times[i] <= l.limits[Lower(walletAddress)].resetTime
    ensures forall i :: 0 <= i < |times| ==>
      CountedDecision(Decisions(l, walletAddress, times)[i], c + i, l.cfg.maxRequests, l.limits[Lower(walletAddress)].resetTime)
    decreases |times|
  {
    if times != [] {
      var key := Lower(walletAddress);
      var resetTime := l.limits[key].resetTime;
      var first := CheckLimit(l, walletAddress, times[0]);
      var c' := if c < l.cfg.maxRequests then c + 1 else c;
      assert !NeedsReset(l, key, times[0]);
      assert first.0.limits[key].count == c';
      assert first.0.limits[key].resetTime == resetTime;
      assert first.0.cfg == l.cfg;
      WindowRun(first.0, walletAddress, times[1..], c');
      var ds := Decisions(l, walletAddress, times);
      var rest := Decisions(first.0, walletAddress, times[1..]);
      assert ds == [first.1] + rest;
      forall i | 0 <= i < |ds|
        ensures CountedDecision(ds[i], c + i, l.cfg.maxRequests, resetTime)
      {
        if i == 0 {
          assert ds[0] == first.1;
        } else {
          assert ds[i] == rest[i - 1];
          assert CountedDecision(rest[i - 1], c' + (i - 1), l.cfg.maxRequests, resetTime);
        }
      }
    }
  }

  /** The check that finds no window in force opens one at `now` and counts
      itself in it (for a positive limit). */
  lemma StartsWindow(l: Limiter, walletAddress: string, now: int)
    requires NeedsReset(l, Lower(walletAddress), now)
    ensures var r := CheckLimit(l, walletAddress, now);
      && r.0.cfg == l.cfg
      && Lower(walletAddress) in r.0.limits
      && r.0.limits[Lower(walletAddress)].count == (if 0 < l.cfg.maxRequests then 1 else 0)
      && r.0.limits[Lower(walletAddress)].resetTime == now + l.cfg.windowMs
      && CountedDecision(r.1, 0, l.cfg.maxRequests, now + l.cfg.windowMs)
  {
  }

  /** Window correctness: starting from no window in force, N = maxRequests
      checks inside one window report N-1, N-2, ..., 0 remaining and every
      further check in that window is denied with 0 remaining. */
  lemma WindowCorrect(l: Limiter, walletAddress: string, times: seq<int>)
    requires |times| >= 1
    requires NeedsReset(l, Lower(walletAddress), times[0])
    requires forall i :: 0 <= i < |times| ==> times[i] <= times[0] + l.cfg.windowMs
    ensures forall i :: 0 <= i < |times| ==>
      CountedDecision(Decisions(l, walletAddress, times)[i], i, l.cfg.maxRequests, times[0] + l.cfg.windowMs)
  {
    var resetTime := times[0] + l.cfg.windowMs;
    var first := CheckLimit(l, walletAddress, times[0]);
    var c' := if 0 < l.cfg.maxRequests then 1 else 0;
    StartsWindow(l, walletAddress, times[0]);
    var later := times[1..];
    assert forall i :: 0 <= i < |later| ==> later[i] <= resetTime by {
      forall i | 0 <= i < |later| ensures later[i] <= resetTime {
        assert later[i] == times[i + 1];
      }
    }
    WindowRun(first.0, walletAddress, later, c');
    var ds := Decisions(l, walletAddress, times);
    var rest := Decisions(first.0, walletAddress, later);
    assert ds == [first.1] + rest;
    forall i | 0 <= i < |ds|
      ensures CountedDecision(ds[i], i, l.cfg.maxRequests, resetTime)
    {
      if i > 0 {
        assert ds[i] == rest[i - 1];
      }
    }
  }

  /** Once the window has passed, a check starts a new window and is allowed
      again (for any positive limit), whatever the old count was. */
  lemma ExpiryAllowsAgain(l: Limiter, walletAddress: string, now: int)
    requires l.cfg.maxRequests > 0
    requires Lower(walletAddress) in l.limits
    requires now > l.limits[Lower(walletAddress)].resetTime
    ensures CheckLimit(l, walletAddress, now).1 == Decision(true, l.cfg.maxRequests - 1, now + l.cfg.windowMs)
  {
  }

  // -----------------------------------------------------------------------
  // The two exported instances
  // -----------------------------------------------------------------------

  datatype Tier = Authenticated | Regular

  /** Both exported limiters of the process. */
  datatype Limiters = Limiters(authenticated: Limiter, regular: Limiter)

  const InitialLimiters := Limiters(NewLimiter(AuthenticatedConfig), NewLimiter(RegularConfig))

  /** A check on one tier: the other tier is untouched, so exhausting one
      tier's limit for a key leaves the other tier's answer for it as it was. */
  function CheckTier(s: Limiters, tier: Tier, walletAddress: string, now: int): (r: (Limiters, Decision))
    ensures tier == Authenticated ==> r.0.regular == s.regular
    ensures tier == Regular ==> r.0.authenticated == s.authenticated
    ensures r.1 == CheckLimit(if tier == Authenticated then s.authenticated else s.regular, walletAddress, now).1
  {
    match tier
    case Authenticated =>
      var (a, d) := CheckLimit(s.authenticated, walletAddress, now);
      (s.(authenticated := a), d)
    case Regular =>
      var (g, d) := CheckLimit(s.regular, walletAddress, now);
      (s.(regular := g), d)
  }

  // -----------------------------------------------------------------------
  // Session tokens
  // -----------------------------------------------------------------------

  const UserMarker := "_user_"

  /** `extractWalletFromToken`: the text after the first `_user_` up to the
      next `_`, provided it starts with `0x`. */
  function ExtractWalletFromToken(token: string): (r: Option<string>)
    ensures IndexOf(token, UserMarker).None? ==> r.None?
    ensures IndexOf(token, UserMarker).Some? ==>
      var start := IndexOf(token, UserMarker).value + |UserMarker|;
      start <= |token| && (r.Some? <==> "0x" <= BeforeChar(token[start..], '_'))
      && (r.Some? ==> r.value == BeforeChar(token[start..], '_'))
    ensures r.Some? ==>
      && "0x" <= r.value && '_' !in r.value
      && IndexOf(token, UserMarker).Some?
      && var start := IndexOf(token, UserMarker).value + |UserMarker|;
         && r.value <= token[start..]
         && (start + |r.value| == |token| || token[start + |r.value|] == '_')
  {
    match IndexOf(token, UserMarker)
    case None => None
    case Some(i) =>
      var after := token[i + |UserMarker|..];
      var wallet := BeforeChar(after, '_');
      if wallet != "" && "0x" <= wallet then Some(wallet) else None
  }

  /** `isValidSessionToken`: a prefix test against the secret. */
  function IsValidSessionToken(token: string, sessionSecret: string): (r: bool)
    ensures r <==> |sessionSecret| <= |token| && token[..|sessionSecret|] == sessionSecret
  {
    sessionSecret <= token
  }

  /** An occurrence inside a prefix is an occurrence in the whole string. */
  lemma OccursInPrefix(s: string, t: string, pat: string, j: nat)
    requires s <= t && j + |pat| <= |s|
    ensures OccursAt(s, pat, j) <==> OccursAt(t, pat, j)
  {
    assert s[j..j + |pat|] == t[j..j + |pat|];
  }

  /** A token `<secret>_user_<wallet>[_...]` is valid for its secret and
      yields its wallet back, when the marker does not already occur
      earlier (inside or across the end of the secret). */
  lemma {:induction false} SessionTokenRoundTrip(secret: string, wallet: string, tail: string)
    requires IndexOf(secret + UserMarker, UserMarker) == Some(|secret|)
    requires "0x" <= wallet && '_' !in wallet
    requires tail == [] || tail[0] == '_'
    ensures var token := secret + UserMarker + wallet + tail;
      && IsValidSessionToken(token, secret)
      && ExtractWalletFromToken(token) == Some(wallet)
  {
    var head := secret + UserMarker;
    var token := head + wallet + tail;
    assert secret + UserMarker + wallet + tail == token;
    assert head <= token;
    forall j | 0 <= j < |secret|
      ensures !OccursAt(token, UserMarker, j)
    {
      OccursInPrefix(head, token, UserMarker, j);
    }
    OccursInPrefix(head, token, UserMarker, |secret|);
    assert IndexOf(token, UserMarker) == Some(|secret|);
    var after := token[|secret| + |UserMarker|..];
    assert after == wallet + tail;
    BeforeCharStops(wallet, '_', tail);
  }

}
