/** Fixed-window rate limiting over an in-memory table of counters
    (src/lib/security/rate-limit.ts).

    The table maps `identifier + ":" + windowSeconds` to a counter and the
    instant its window closes.  The clock (`Date.now()`) and the one-in-a-hundred
    cleanup roll (`Math.random() < 0.01`) are parameters of each call. */
module RateLimit {
  import opened Text

  datatype RateLimitConfig = RateLimitConfig(maxRequests: int, windowSeconds: int)

  /** The presets of `RATE_LIMITS`. */
  const AUTH := RateLimitConfig(5, 900)
  const API := RateLimitConfig(100, 60)
  const TEST_SUBMISSION := RateLimitConfig(20, 300)
  const UPLOAD := RateLimitConfig(50, 600)
  const PASSWORD_RESET := RateLimitConfig(3, 3600)

  datatype Entry = Entry(count: int, resetTime: int)

  datatype RateLimitResult = RateLimitResult(success: bool, remaining: int, resetTime: int, message: Option<string>)

  /** The table together with the answer of one call. */
  datatype Outcome = Outcome(store: map<string, Entry>, result: RateLimitResult)

  /** The table key of an identifier under a window length. */
  function StoreKey(identifier: string, windowSeconds: int): string {
    identifier + ":" + IntToString(windowSeconds)
  }

  /** Two callers share a counter only when both the identifier and the window agree. */
  lemma StoreKeyInjective(a: string, wa: int, b: string, wb: int)
    requires StoreKey(a, wa) == StoreKey(b, wb)
    ensures a == b && wa == wb
  {
    IntToStringHasOnlyDigitsAndSign(wa, ':');
    IntToStringHasOnlyDigitsAndSign(wb, ':');
    SplitAtLastSeparator(a, IntToString(wa), b, IntToString(wb), ':');
    IntToStringInjective(wa, wb);
  }

  /** A text joined to a separator-free tail splits back at its last separator. */
  lemma SplitAtLastSeparator(a: string, t: string, b: string, u: string, sep: char)
    requires sep !in t && sep !in u && a + [sep] + t == b + [sep] + u
    ensures a == b && t == u
  {
    var k := a + [sep] + t;
    forall j | |a| < j < |k|
      ensures k[j] != sep
    {
      assert k[j] == t[j - |a| - 1];
    }
    forall j | |b| < j < |k|
      ensures k[j] != sep
    {
      assert k[j] == u[j - |b| - 1];
    }
    assert k[|a|] == sep && k[|b|] == sep;
    assert |a| == |b|;
    assert a == k[..|a|] == b;
    assert t == k[|a| + 1..] == u;
  }

  /** The text of a refusal, with the seconds left rounded up. */
  function ExceededMessage(resetTime: int, now: int): string {
    "Rate limit exceeded. Try again in " + IntToString(CeilDiv(resetTime - now, 1000)) + " seconds"
  }

  /** A counter that is still open at `now` and has reached the limit. */
  predicate Exhausted(store: map<string, Entry>, key: string, config: RateLimitConfig, now: int) {
    key in store && now <= store[key].resetTime && store[key].count >= config.maxRequests
  }

  /** What one `checkRateLimit` call does to the table and answers, after any cleanup. */
  function Check(store: map<string, Entry>, identifier: string, config: RateLimitConfig, now: int): (o: Outcome)
    // a request is refused exactly when its counter is open and exhausted
    ensures var key := StoreKey(identifier, config.windowSeconds);
      o.result.success <==> !Exhausted(store, key, config, now)
    // a refusal leaves the table alone and reports the open window
    ensures var key := StoreKey(identifier, config.windowSeconds);
      !o.result.success ==>
        (o.store == store && o.result.remaining == 0
         && o.result.resetTime == store[key].resetTime
         && o.result.message == Some(ExceededMessage(store[key].resetTime, now)))
    // an admission counts itself and reports what is left of the limit
    ensures var key := StoreKey(identifier, config.windowSeconds);
      o.result.success ==>
        (key in o.store && o.result.message.None?
         && o.result.remaining == config.maxRequests - o.store[key].count
         && o.result.resetTime == o.store[key].resetTime
         && o.store == store[key := o.store[key]]
         && (if key in store && now <= store[key].resetTime
             then o.store[key] == store[key].(count := store[key].count + 1)
             else o.store[key] == Entry(1, now + config.windowSeconds * 1000)))
  {
    var key := StoreKey(identifier, config.windowSeconds);
    if key !in store || now > store[key].resetTime then
      var resetTime := now + config.windowSeconds * 1000;
      Outcome(store[key := Entry(1, resetTime)], RateLimitResult(true, config.maxRequests - 1, resetTime, None))
    else
      var entry := store[key];
      if entry.count >= config.maxRequests then
        Outcome(store, RateLimitResult(false, 0, entry.resetTime, Some(ExceededMessage(entry.resetTime, now))))
      else
        var entry' := entry.(count := entry.count + 1);
        Outcome(store[key := entry'], RateLimitResult(true, config.maxRequests - entry'.count, entry'.resetTime, None))
  }

  /** The table with every counter whose window has closed at `now` removed. */
  function Unexpired(store: map<string, Entry>, now: int): (r: map<string, Entry>)
    ensures r.Keys <= store.Keys
    ensures forall k :: k in store ==> (k in r <==> now <= store[k].resetTime)
    ensures forall k :: k in r ==> r[k] == store[k]
  {
    map k | k in store && now <= store[k].resetTime :: store[k]
  }

  /** The in-memory table, shared by every call in one server process. */
  class RateLimiter {
    var store: map<string, Entry>

    constructor ()
      ensures store == map[]
    {
      store := map[];
    }

    /** `checkRateLimit`: `cleanupRoll` stands for `Math.random() < 0.01`. */
    method CheckRateLimit(identifier: string, config: RateLimitConfig, now: int, cleanupRoll: bool)
      returns (r: RateLimitResult)
      modifies this
      ensures var before := if cleanupRoll then Unexpired(old(store), now) else old(store);
        Check(before, identifier, config, now) == Outcome(store, r)
    {
      var key := StoreKey(identifier, config.windowSeconds);
      if cleanupRoll {
        CleanupExpiredEntries(now);
      }
      if key !in store || now > store[key].resetTime {
        var resetTime := now + config.windowSeconds * 1000;
        store := store[key := Entry(1, resetTime)];
        return RateLimitResult(true, config.maxRequests - 1, resetTime, None);
      }
      var entry := store[key];
      if entry.count >= config.maxRequests {
        return RateLimitResult(false, 0, entry.resetTime, Some(ExceededMessage(entry.resetTime, now)));
      }
      entry := entry.(count := entry.count + 1);
      store := store[key := entry];
      r := RateLimitResult(true, config.maxRequests - entry.count, entry.resetTime, None);
    }

    /** `cleanupExpiredEntries`: collect the closed keys, then delete them. */
    method CleanupExpiredEntries(now: int)
      modifies this
      ensures store == Unexpired(old(store), now)
    {
      var keysToDelete: set<string> := {};
      var pending := store.Keys;
      while pending != {}
        invariant pending <= store.Keys
        invariant forall k :: k in keysToDelete <==> (k in store && k !in pending && now > store[k].resetTime)
        decreases pending
      {
        var k :| k in pending;
        if now > store[k].resetTime {
          keysToDelete := keysToDelete + {k};
        }
        pending := pending - {k};
      }
      ghost var original := store;
      var remaining := keysToDelete;
      while remaining != {}
        invariant remaining <= keysToDelete
        invariant store == original - (keysToDelete - remaining)
        decreases remaining
      {
        var k :| k in remaining;
        store := store - {k};
        remaining := remaining - {k};
      }
      assert store == Unexpired(original, now);
    }
  }

  // ---------------------------------------------------------------------------
  // Sequences of calls
  // ---------------------------------------------------------------------------

  /** The answers to a series of calls for one identifier, at the instants `times`. */
  function Run(store: map<string, Entry>, identifier: string, config: RateLimitConfig, times: seq<int>): (r: seq<bool>)
    ensures |r| == |times|
    decreases |times|
  {
    if |times| == 0 then []
    else
      var o := Check(store, identifier, config, times[0]);
      [o.result.success] + Run(o.store, identifier, config, times[1..])
  }

  /** While a counter stands at `c` and its window stays open, the `i`-th further call
      is admitted exactly when `c + i` is still under the limit. */
  lemma {:induction false} OpenWindowRun(store: map<string, Entry>, identifier: string, config: RateLimitConfig,
                                        times: seq<int>, c: int, resetTime: int)
    requires StoreKey(identifier, config.windowSeconds) in store
    requires store[StoreKey(identifier, config.windowSeconds)] == Entry(c, resetTime)
    requires forall i :: 0 <= i < |times| ==> times[i] <= resetTime
    ensures forall i :: 0 <= i < |times| ==> Run(store, identifier, config, times)[i] == (c + i < config.maxRequests)
    decreases |times|
  {
    if |times| > 0 {
      var key := StoreKey(identifier, config.windowSeconds);
      var o := Check(store, identifier, config, times[0]);
      var next := if c < config.maxRequests then c + 1 else c;
      assert o.store[key] == Entry(next, resetTime);
      OpenWindowRun(o.store, identifier, config, times[1..], next, resetTime);
      var r := Run(store, identifier, config, times);
      forall i | 0 <= i < |times|
        ensures r[i] == (c + i < config.maxRequests)
      {
        if i > 0 {
          assert r[i] == Run(o.store, identifier, config, times[1..])[i - 1];
        }
      }
    }
  }

  /** Within one window that starts fresh, exactly the first `max(1, maxRequests)`
      calls are admitted and every later one is refused. */
  lemma WindowAdmitsExactly(store: map<string, Entry>, identifier: string, config: RateLimitConfig, times: seq<int>)
    requires |times| > 0
    requires var key := StoreKey(identifier, config.windowSeconds);
      key !in store || times[0] > store[key].resetTime
    requires forall i :: 0 <= i < |times| ==> times[i] <= times[0] + config.windowSeconds * 1000
    ensures forall i :: 0 <= i < |times| ==> Run(store, identifier, config, times)[i] == (i < Max(1, config.maxRequests))
  {
    var o := Check(store, identifier, config, times[0]);
    var resetTime := times[0] + config.windowSeconds * 1000;
    OpenWindowRun(o.store, identifier, config, times[1..], 1, resetTime);
    var r := Run(store, identifier, config, times);
    forall i | 0 <= i < |times|
      ensures r[i] == (i < Max(1, config.maxRequests))
    {
      if i > 0 {
        assert r[i] == Run(o.store, identifier, config, times[1..])[i - 1];
      }
    }
  }

  /** Once the window has closed, the next call is admitted and opens a new window. */
  lemma ExpiredWindowReopens(store: map<string, Entry>, identifier: string, config: RateLimitConfig, now: int)
    requires var key := StoreKey(identifier, config.windowSeconds);
      key in store && now > store[key].resetTime
    ensures var o := Check(store, identifier, config, now);
      o.result.success && o.result.remaining == config.maxRequests - 1
      && o.result.resetTime == now + config.windowSeconds * 1000
  {
  }

  /** Calls for one identifier never touch the counter of another identifier, nor
      the counter of the same identifier under another window length. */
  lemma CountersAreIndependent(store: map<string, Entry>, a: string, configA: RateLimitConfig,
                               b: string, configB: RateLimitConfig, now: int)
    requires a != b || configA.windowSeconds != configB.windowSeconds
    ensures var ka := StoreKey(a, configA.windowSeconds);
      var o := Check(store, b, configB, now);
      (ka in o.store <==> ka in store) && (ka in store ==> o.store[ka] == store[ka])
  {
    var ka := StoreKey(a, configA.windowSeconds);
    var kb := StoreKey(b, configB.windowSeconds);
    if ka == kb {
      StoreKeyInjective(a, configA.windowSeconds, b, configB.windowSeconds);
    }
  }

  /** With a positive limit, an open counter always lies between 1 and the limit. */
  lemma CountStaysWithinLimit(store: map<string, Entry>, identifier: string, config: RateLimitConfig, now: int)
    requires config.maxRequests >= 1
    requires var key := StoreKey(identifier, config.windowSeconds);
      key in store ==> 1 <= store[key].count <= config.maxRequests
    ensures var key := StoreKey(identifier, config.windowSeconds);
      var o := Check(store, identifier, config, now);
      1 <= o.store[key].count <= config.maxRequests && 0 <= o.result.remaining < config.maxRequests
  {
  }

  // ---------------------------------------------------------------------------
  // Client identification
  // ---------------------------------------------------------------------------

  /** The request headers `getClientIdentifier` reads; `None` is an absent header. */
  datatype ClientHeaders = ClientHeaders(forwardedFor: Option<string>, realIp: Option<string>, userAgent: Option<string>)

  /** A header value JavaScript treats as true: present and not empty. */
  predicate Truthy(h: Option<string>) {
    h.Some? && h.value != ""
  }

  const INT32_MODULUS: int := 0x1_0000_0000

  predicate IsInt32(x: int) {
    -0x8000_0000 <= x < 0x8000_0000
  }

  /** JavaScript's ToInt32: reduce modulo 2^32 into the signed 32-bit range. */
  function ToInt32(x: int): (r: int)
    ensures IsInt32(r)
    ensures (r - x) % INT32_MODULUS == 0
    ensures IsInt32(x) ==> r == x
  {
    (x + 0x8000_0000) % INT32_MODULUS - 0x8000_0000
  }

  /** One round of `hashString`: `((hash << 5) - hash) + char`, then `hash & hash`. */
  function HashStep(hash: int, c: char): int {
    ToInt32(ToInt32(hash * 32) - hash + c as int)
  }

  /** The value `hashString` reaches after reading all of `s`. */
  function HashCode(s: string): (h: int)
    ensures IsInt32(h)
  {
    if |s| == 0 then 0 else HashStep(HashCode(s[..|s| - 1]), s[|s| - 1])
  }

  /** The polynomial `s[0]*31^(n-1) + ... + s[n-1]` over unbounded integers. */
  function Polynomial(s: string): int {
    if |s| == 0 then 0 else 31 * Polynomial(s[..|s| - 1]) + s[|s| - 1] as int
  }

  /** The remainder of `q * 2^32 + r` is `r`. */
  lemma ModuloOfMultiple(a: int, q: int, r: int)
    requires a == q * INT32_MODULUS + r && 0 <= r < INT32_MODULUS
    ensures a % INT32_MODULUS == r
  {
  }

  /** ToInt32 ignores multiples of 2^32. */
  lemma ToInt32Shift(x: int, k: int)
    ensures ToInt32(x + k * INT32_MODULUS) == ToInt32(x)
  {
    var y := x + 0x8000_0000;
    var q := y / INT32_MODULUS;
    var r := y % INT32_MODULUS;
    ModuloOfMultiple(y + k * INT32_MODULUS, q + k, r);
  }

  /** ToInt32(x) differs from x by a multiple of 2^32. */
  lemma ToInt32Offset(x: int) returns (q: int)
    ensures ToInt32(x) == x - q * INT32_MODULUS
  {
    q := (x + 0x8000_0000) / INT32_MODULUS;
  }

  /** One round of `hashString` is one step of the polynomial, reduced to 32 bits. */
  lemma HashStepIsReduced(h: int, c: char)
    ensures HashStep(h, c) == ToInt32(31 * h + c as int)
  {
    var q := ToInt32Offset(h * 32);
    ToInt32Shift(31 * h + c as int, -q);
  }

  /** `hashString` is the 31-polynomial hash of the character codes, taken modulo 2^32
      as a signed 32-bit integer. */
  lemma {:induction false} HashCodeIsPolynomial(s: string)
    ensures HashCode(s) == ToInt32(Polynomial(s))
  {
    if |s| > 0 {
      var p := s[..|s| - 1];
      var c := s[|s| - 1];
      HashCodeIsPolynomial(p);
      HashStepIsReduced(HashCode(p), c);
      var q := ToInt32Offset(Polynomial(p));
      assert 31 * HashCode(p) + c as int == Polynomial(s) + (-31 * q) * INT32_MODULUS;
      ToInt32Shift(Polynomial(s), -31 * q);
    }
  }

  function Base36Digit(d: nat): char
    requires d < 36
  {
    if d < 10 then ('0' as int + d) as char else ('a' as int + d - 10) as char
  }

  /** `n.toString(36)` for a natural number. */
  function NatToBase36(n: nat): (r: string)
    ensures |r| >= 1
    ensures forall i :: 0 <= i < |r| ==> ('0' <= r[i] <= '9' || 'a' <= r[i] <= 'z')
  {
    if n < 36 then [Base36Digit(n)] else NatToBase36(n / 36) + [Base36Digit(n % 36)]
  }

  /** `hash.toString(36)`: a minus sign for negative values, then base-36 digits. */
  function ToBase36(x: int): string {
    if x < 0 then "-" + NatToBase36(-x) else NatToBase36(x)
  }

  /** `hashString`: folds the character codes into a 32-bit hash, rendered in base 36. */
  method HashString(s: string) returns (r: string)
    ensures r == ToBase36(ToInt32(Polynomial(s)))
  {
    var hash := 0;
    var i := 0;
    while i < |s|
      invariant 0 <= i <= |s|
      invariant hash == HashCode(s[..i])
    {
      var c := s[i] as int;
      hash := ToInt32(hash * 32) - hash + c;
      hash := ToInt32(hash);
      assert s[..i + 1][..i] == s[..i];
      i := i + 1;
    }
    assert s[..i] == s;
    HashCodeIsPolynomial(s);
    r := ToBase36(hash);
  }

  /** The identifier of a request: the first `x-forwarded-for` entry, else
      `x-real-ip`, else a hash of the user agent (or of "unknown"). */
  function ClientIdentifier(h: ClientHeaders): (id: string)
    ensures Truthy(h.forwardedFor) ==> ',' !in id
  {
    if Truthy(h.forwardedFor) then
      Trim(FirstField(h.forwardedFor.value, ','))
    else if Truthy(h.realIp) then h.realIp.value
    else ToBase36(ToInt32(Polynomial(if Truthy(h.userAgent) then h.userAgent.value else "unknown")))
  }

  /** `getClientIdentifier`, hashing with the loop of `hashString`. */
  method GetClientIdentifier(h: ClientHeaders) returns (id: string)
    ensures id == ClientIdentifier(h)
    ensures Truthy(h.forwardedFor) ==>
      id == Trim(SplitOn(h.forwardedFor.value, ',')[0]) && ',' !in id
    ensures !Truthy(h.forwardedFor) && Truthy(h.realIp) ==> id == h.realIp.value
    ensures !Truthy(h.forwardedFor) && !Truthy(h.realIp) ==>
      id == ToBase36(ToInt32(Polynomial(if Truthy(h.userAgent) then h.userAgent.value else "unknown")))
  {
    if Truthy(h.forwardedFor) {
      var first := FirstField(h.forwardedFor.value, ',');
      id := Trim(first);
      return;
    }
    if Truthy(h.realIp) {
      return h.realIp.value;
    }
    var userAgent := if Truthy(h.userAgent) then h.userAgent.value else "unknown";
    id := HashString(userAgent);
  }

  /** `withRateLimit`: an explicit identifier wins over the one taken from the request. */
  method WithRateLimit(limiter: RateLimiter, h: ClientHeaders, config: RateLimitConfig,
                       identifier: Option<string>, now: int, cleanupRoll: bool)
    returns (r: RateLimitResult)
    modifies limiter
    ensures Truthy(identifier) ==>
      var before := if cleanupRoll then Unexpired(old(limiter.store), now) else old(limiter.store);
      Check(before, identifier.value, config, now) == Outcome(limiter.store, r)
    ensures !Truthy(identifier) ==>
      var before := if cleanupRoll then Unexpired(old(limiter.store), now) else old(limiter.store);
      Check(before, ClientIdentifier(h), config, now) == Outcome(limiter.store, r)
  {
    var clientId;
    if Truthy(identifier) {
      clientId := identifier.value;
    } else {
      clientId := GetClientIdentifier(h);
    }
    r := limiter.CheckRateLimit(clientId, config, now, cleanupRoll);
  }
}
