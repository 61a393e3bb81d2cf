/** Per-key token buckets with eviction of full ones (internal/middleware/middleware.go). A bucket
    follows the limiter of golang.org/x/time/rate: it refills at `r` tokens a second up to `b`, and
    changes only when a request is allowed. Times are seconds, read from a clock that never goes back. */
module RateLimiting {

  datatype Rate = Rate(r: real, b: nat)

  /** `tokens` were there at time `last`. */
  datatype Bucket = Bucket(tokens: real, last: real)
  type Buckets = map<string, Bucket>

  function Fresh(c: Rate): Bucket {
    Bucket(c.b as real, 0.0)
  }

  function Refill(c: Rate, seconds: real): real {
    if c.r <= 0.0 then 0.0 else c.r * seconds
  }

  function Cap(c: Rate, x: real): real {
    if x > c.b as real then c.b as real else x
  }

  /** The tokens at time `now`. */
  function Tokens(c: Rate, k: Bucket, now: real): real {
    var last := if now < k.last then now else k.last;
    Cap(c, k.tokens + Refill(c, now - last))
  }

  /** One token is taken if a whole one is there. */
  function Take(c: Rate, k: Bucket, now: real): (bool, Bucket) {
    var left := Tokens(c, k, now) - 1.0;
    if c.b >= 1 && left >= 0.0 then (true, Bucket(left, now)) else (false, k)
  }

  function Lookup(c: Rate, m: Buckets, key: string): Bucket {
    if key in m then m[key] else Fresh(c)
  }

  function Ask(c: Rate, m: Buckets, key: string, now: real): (bool, Buckets) {
    var (ok, k) := Take(c, Lookup(c, m, key), now);
    (ok, m[key := k])
  }

  function Evict(c: Rate, m: Buckets, key: string, now: real): Buckets {
    if key in m && Tokens(c, m[key], now) >= c.b as real then m - {key} else m
  }

  function Ceil(x: real): int {
    -((-x).Floor)
  }

  function RetryAfterSeconds(c: Rate): int {
    if c.r <= 0.0 then 0 else Ceil(1.0 / c.r)
  }

  class RateLimiter {
    var limiters: Buckets
    const c: Rate

    constructor (c: Rate)
      ensures this.c == c && limiters == map[]
    {
      this.c := c;
      limiters := map[];
    }

    method Allow(key: string, now: real) returns (ok: bool)
      modifies this
      ensures (ok, limiters) == Ask(c, old(limiters), key, now)
    {
      var k: Bucket;
      if key in limiters {
        k := limiters[key];
      } else {
        k := Fresh(c);
        limiters := limiters[key := k];
      }
      var (allowed, after) := Take(c, k, now);
      limiters := limiters[key := after];
      assert limiters == old(limiters)[key := after];
      return allowed;
    }

    /** Visits every entry, in any order, and removes exactly those whose bucket is full: a sequence
        of the eviction steps below. */
    method Sweep(now: real) returns (ghost visited: seq<string>)
      modifies this
      ensures limiters == map k | k in old(limiters) && Tokens(c, old(limiters)[k], now) < c.b as real :: old(limiters)[k]
      ensures limiters == StateAfter(c, old(limiters), Evictions(visited, now))
      ensures forall k :: k in old(limiters) <==> k in visited
    {
      var todo := limiters.Keys;
      ghost var start := limiters;
      visited := [];
      while todo != {}
        invariant todo <= start.Keys
        invariant forall k :: k in visited <==> k in start && k !in todo
        invariant forall k :: k in limiters <==> k in start && (k in todo || Tokens(c, start[k], now) < c.b as real)
        invariant forall k :: k in limiters ==> limiters[k] == start[k]
        invariant limiters == StateAfter(c, start, Evictions(visited, now))
      {
        var key :| key in todo;
        todo := todo - {key};
        OneMoreEviction(c, start, visited, key, now);
        visited := visited + [key];
        if Tokens(c, limiters[key], now) >= c.b as real {
          limiters := limiters - {key};
        }
      }
    }
  }

  // ---------------------------------------------------------------- runs of requests and evictions

  datatype Step = Request(key: string, t: real) | Eviction(key: string, t: real)

  function Evictions(keys: seq<string>, now: real): (steps: seq<Step>)
    ensures |steps| == |keys|
  {
    seq(|keys|, i requires 0 <= i < |keys| => Eviction(keys[i], now))
  }

  /** A sweep at `now` may stand anywhere in a timed run between steps before and after `now`. */
  lemma {:induction false} EvictionsAreTimed(keys: seq<string>, now: real, rest: seq<Step>)
    requires Timed(rest, now)
    ensures Timed(Evictions(keys, now) + rest, now)
    decreases |keys|
  {
    var steps := Evictions(keys, now);
    if keys == [] {
      assert steps + rest == rest;
    } else {
      assert steps[1..] == Evictions(keys[1..], now);
      assert (steps + rest)[1..] == steps[1..] + rest;
      EvictionsAreTimed(keys[1..], now, rest);
    }
  }

  lemma {:induction false} StateAfterSplits(c: Rate, m: Buckets, a: seq<Step>, b: seq<Step>)
    ensures StateAfter(c, m, a + b) == StateAfter(c, StateAfter(c, m, a), b)
    decreases |a|
  {
    if a == [] {
      assert a + b == b;
    } else {
      assert (a + b)[1..] == a[1..] + b;
      StateAfterSplits(c, Next(c, m, a[0]), a[1..], b);
    }
  }

  lemma OneMoreEviction(c: Rate, m: Buckets, keys: seq<string>, key: string, now: real)
    ensures StateAfter(c, m, Evictions(keys + [key], now)) == Evict(c, StateAfter(c, m, Evictions(keys, now)), key, now)
  {
    assert Evictions(keys + [key], now) == Evictions(keys, now) + [Eviction(key, now)];
    StateAfterSplits(c, m, Evictions(keys, now), [Eviction(key, now)]);
  }

  function Next(c: Rate, m: Buckets, s: Step): Buckets {
    match s
    case Request(key, t) => Ask(c, m, key, t).1
    case Eviction(key, t) => Evict(c, m, key, t)
  }

  /** Times do not decrease, starting at `now`. */
  predicate Timed(steps: seq<Step>, now: real) {
    steps == [] || (steps[0].t >= now && Timed(steps[1..], steps[0].t))
  }

  /** The answers given, in order. */
  function Answers(c: Rate, m: Buckets, steps: seq<Step>): seq<bool>
    decreases |steps|
  {
    if steps == [] then []
    else
      var s := steps[0];
      (if s.Request? then [Ask(c, m, s.key, s.t).0] else []) + Answers(c, Next(c, m, s), steps[1..])
  }

  function RequestsOnly(steps: seq<Step>): seq<Step> {
    if steps == [] then []
    else (if steps[0].Request? then [steps[0]] else []) + RequestsOnly(steps[1..])
  }

  /** Bucket times lie in the past, and no bucket is overdrawn or over-full. */
  ghost predicate Sound(c: Rate, m: Buckets, now: real) {
    now >= 0.0 && forall k :: k in m ==> 0.0 <= m[k].last <= now && 0.0 <= m[k].tokens <= c.b as real
  }

  function At(c: Rate, m: Buckets, key: string, now: real): real {
    Tokens(c, Lookup(c, m, key), now)
  }

  lemma RefillAdds(c: Rate, x: real, y: real)
    requires x >= 0.0 && y >= 0.0
    ensures Refill(c, x + y) == Refill(c, x) + Refill(c, y)
    ensures Refill(c, x) >= 0.0
  {
    if c.r > 0.0 {
      assert c.r * (x + y) == c.r * x + c.r * y;
    }
  }

  /** The tokens at a later time follow from the tokens now. */
  lemma TokensLater(c: Rate, k: Bucket, now: real, later: real)
    requires 0.0 <= k.last <= now <= later && 0.0 <= k.tokens <= c.b as real
    ensures Tokens(c, k, later) == Cap(c, Tokens(c, k, now) + Refill(c, later - now))
    ensures 0.0 <= Tokens(c, k, now) <= c.b as real
  {
    RefillAdds(c, now - k.last, later - now);
    RefillAdds(c, later - now, 0.0);
    assert (now - k.last) + (later - now) == later - k.last;
  }

  lemma AtLater(c: Rate, m: Buckets, key: string, now: real, later: real)
    requires Sound(c, m, now) && now <= later
    ensures Sound(c, m, later)
    ensures At(c, m, key, later) == Cap(c, At(c, m, key, now) + Refill(c, later - now))
    ensures 0.0 <= At(c, m, key, now) <= c.b as real
  {
    TokensLater(c, Lookup(c, m, key), now, later);
  }

  /** What a step at its own time does to the tokens of a key. */
  lemma StepTokens(c: Rate, m: Buckets, s: Step, key: string)
    requires Sound(c, m, s.t)
    ensures Sound(c, Next(c, m, s), s.t)
    ensures At(c, Next(c, m, s), key, s.t) ==
              At(c, m, key, s.t) - (if s.Request? && s.key == key && Ask(c, m, s.key, s.t).0 then 1.0 else 0.0)
  {
    AtLater(c, m, s.key, s.t, s.t);
    AtLater(c, m, key, s.t, s.t);
    RefillAdds(c, s.t, 0.0);
    RefillAdds(c, 0.0, 0.0);
  }

  /** Two caches that answer alike from now on. */
  ghost predicate Alike(c: Rate, m: Buckets, n: Buckets, now: real) {
    Sound(c, m, now) && Sound(c, n, now) && forall key :: At(c, m, key, now) == At(c, n, key, now)
  }

  lemma {:induction false} EvictionIsUnobservableFrom(c: Rate, m: Buckets, n: Buckets, steps: seq<Step>, now: real)
    requires Alike(c, m, n, now) && Timed(steps, now)
    ensures Answers(c, m, steps) == Answers(c, n, RequestsOnly(steps))
    decreases |steps|
  {
    if steps != [] {
      var s, rest := steps[0], steps[1..];
      forall key
        ensures At(c, m, key, s.t) == At(c, n, key, s.t)
      {
        AtLater(c, m, key, now, s.t);
        AtLater(c, n, key, now, s.t);
      }
      AtLater(c, m, s.key, now, s.t);
      AtLater(c, n, s.key, now, s.t);
      var n' := if s.Request? then Next(c, n, s) else n;
      StepTokens(c, m, s, s.key);
      StepTokens(c, n, s, s.key);
      forall key
        ensures At(c, Next(c, m, s), key, s.t) == At(c, n', key, s.t)
      {
        StepTokens(c, m, s, key);
        StepTokens(c, n, s, key);
      }
      EvictionIsUnobservableFrom(c, Next(c, m, s), n', rest, s.t);
      if s.Request? {
        assert RequestsOnly(steps) == [s] + RequestsOnly(rest);
      } else {
        assert RequestsOnly(steps) == RequestsOnly(rest);
      }
    }
  }

  /** Evicting full buckets is unobservable: every answer is the one of a limiter that keeps a
      bucket per key forever. */
  lemma EvictionIsUnobservable(c: Rate, steps: seq<Step>)
    requires Timed(steps, 0.0)
    ensures Answers(c, map[], steps) == Answers(c, map[], RequestsOnly(steps))
  {
    EvictionIsUnobservableFrom(c, map[], map[], steps, 0.0);
  }

  lemma {:induction false} RequestsOnlySplits(a: seq<Step>, b: seq<Step>)
    ensures RequestsOnly(a + b) == RequestsOnly(a) + RequestsOnly(b)
  {
    if a == [] {
      assert a + b == b;
    } else {
      var first := if a[0].Request? then [a[0]] else [];
      assert (a + b)[1..] == a[1..] + b;
      RequestsOnlySplits(a[1..], b);
      assert first + RequestsOnly(a[1..]) + RequestsOnly(b) == first + (RequestsOnly(a[1..]) + RequestsOnly(b));
    }
  }

  lemma {:induction false} NoRequests(keys: seq<string>, now: real)
    ensures RequestsOnly(Evictions(keys, now)) == []
    decreases |keys|
  {
    if keys != [] {
      assert Evictions(keys, now)[1..] == Evictions(keys[1..], now);
      NoRequests(keys[1..], now);
    }
  }

  lemma {:induction false} TimedJoin(a: seq<Step>, b: seq<Step>, start: real, now: real)
    requires Timed(a, start) && EndsBy(a, now) && start <= now && Timed(b, now)
    ensures Timed(a + b, start)
    decreases |a|
  {
    if a == [] {
      assert a + b == b;
    } else {
      assert (a + b)[1..] == a[1..] + b;
      TimedJoin(a[1..], b, a[0].t, now);
    }
  }

  /** A sweep of any keys, at any moment of any run, changes no answer. */
  lemma SweepIsUnobservable(c: Rate, past: seq<Step>, visited: seq<string>, now: real, rest: seq<Step>)
    requires Timed(past, 0.0) && EndsBy(past, now) && now >= 0.0 && Timed(rest, now)
    ensures Answers(c, map[], past + (Evictions(visited, now) + rest)) == Answers(c, map[], past + rest)
  {
    var sweep := Evictions(visited, now);
    EvictionsAreTimed(visited, now, rest);
    TimedJoin(past, sweep + rest, 0.0, now);
    TimedJoin(past, rest, 0.0, now);
    EvictionIsUnobservable(c, past + (sweep + rest));
    EvictionIsUnobservable(c, past + rest);
    NoRequests(visited, now);
    RequestsOnlySplits(sweep, rest);
    RequestsOnlySplits(past, sweep + rest);
    RequestsOnlySplits(past, rest);
    assert [] + RequestsOnly(rest) == RequestsOnly(rest);
  }

  // ---------------------------------------------------------------- how much gets through

  function StateAfter(c: Rate, m: Buckets, steps: seq<Step>): Buckets
    decreases |steps|
  {
    if steps == [] then m else StateAfter(c, Next(c, m, steps[0]), steps[1..])
  }

  /** How many requests of `key` are allowed. */
  function Allowed(c: Rate, m: Buckets, steps: seq<Step>, key: string): nat
    decreases |steps|
  {
    if steps == [] then 0
    else
      var s := steps[0];
      (if s.Request? && s.key == key && Ask(c, m, s.key, s.t).0 then 1 else 0) + Allowed(c, Next(c, m, s), steps[1..], key)
  }

  predicate EndsBy(steps: seq<Step>, end: real) {
    forall i :: 0 <= i < |steps| ==> steps[i].t <= end
  }

  lemma {:induction false} TokensSpent(c: Rate, m: Buckets, steps: seq<Step>, key: string, now: real, end: real)
    requires Sound(c, m, now) && Timed(steps, now) && EndsBy(steps, end) && now <= end
    ensures Sound(c, StateAfter(c, m, steps), end)
    ensures Allowed(c, m, steps, key) as real + At(c, StateAfter(c, m, steps), key, end)
              <= At(c, m, key, now) + Refill(c, end - now)
    decreases |steps|
  {
    if steps == [] {
      AtLater(c, m, key, now, end);
    } else {
      var s := steps[0];
      AtLater(c, m, key, now, s.t);
      StepTokens(c, m, s, key);
      assert EndsBy(steps[1..], end) by {
        assert forall i :: 0 <= i < |steps[1..]| ==> steps[1..][i] == steps[i + 1];
      }
      TokensSpent(c, Next(c, m, s), steps[1..], key, s.t, end);
      RefillAdds(c, s.t - now, end - s.t);
      assert (s.t - now) + (end - s.t) == end - now;
    }
  }

  lemma {:induction false} RunIsSound(c: Rate, m: Buckets, steps: seq<Step>, now: real)
    requires Sound(c, m, now) && Timed(steps, now)
    ensures Sound(c, StateAfter(c, m, steps), if steps == [] then now else steps[|steps| - 1].t)
    decreases |steps|
  {
    if steps != [] {
      AtLater(c, m, steps[0].key, now, steps[0].t);
      StepTokens(c, m, steps[0], steps[0].key);
      RunIsSound(c, Next(c, m, steps[0]), steps[1..], steps[0].t);
    }
  }

  /** After any past, a key gets at most b + r * T requests through in any window of T seconds,
      whatever is evicted meanwhile. */
  lemma WindowBound(c: Rate, past: seq<Step>, window: seq<Step>, key: string, start: real, end: real)
    requires c.r >= 0.0 && start <= end
    requires Timed(past, 0.0) && (past != [] ==> past[|past| - 1].t <= start) && start >= 0.0
    requires Timed(window, start) && EndsBy(window, end)
    ensures Allowed(c, StateAfter(c, map[], past), window, key) as real <= c.b as real + c.r * (end - start)
  {
    var m := StateAfter(c, map[], past);
    SoundLater(c, past, start);
    TokensSpent(c, m, window, key, start, end);
    SpentBound(c, m, StateAfter(c, m, window), key, start, end, Allowed(c, m, window, key));
  }

  lemma SoundLater(c: Rate, past: seq<Step>, start: real)
    requires Timed(past, 0.0) && (past != [] ==> past[|past| - 1].t <= start) && start >= 0.0
    ensures Sound(c, StateAfter(c, map[], past), start)
  {
    RunIsSound(c, map[], past, 0.0);
    AtLater(c, StateAfter(c, map[], past), "", if past == [] then 0.0 else past[|past| - 1].t, start);
  }

  lemma SpentBound(c: Rate, m: Buckets, m': Buckets, key: string, start: real, end: real, n: nat)
    requires c.r >= 0.0 && Sound(c, m, start) && Sound(c, m', end)
    requires n as real + At(c, m', key, end) <= At(c, m, key, start) + Refill(c, end - start)
    ensures n as real <= c.b as real + c.r * (end - start)
  {
    AtLater(c, m, key, start, start);
    AtLater(c, m', key, end, end);
    assert Refill(c, end - start) == c.r * (end - start);
  }

  // ---------------------------------------------------------------- who is denied

  function StartOf(steps: seq<Step>, i: nat, end: real): real {
    if i < |steps| then steps[i].t else end
  }

  function AllowedSince(c: Rate, m: Buckets, steps: seq<Step>, i: nat, key: string): nat
    requires i <= |steps|
  {
    Allowed(c, StateAfter(c, m, steps[..i]), steps[i..], key)
  }

  /** The bucket was full just before step `i`, and has only refilled and been drawn from since. */
  ghost predicate FullBefore(c: Rate, m: Buckets, steps: seq<Step>, i: nat, key: string, end: real) {
    && i <= |steps|
    && At(c, StateAfter(c, m, steps), key, end)
       == c.b as real + Refill(c, end - StartOf(steps, i, end)) - AllowedSince(c, m, steps, i, key) as real
  }

  /** The bucket has only refilled and been drawn from since `now`. */
  ghost predicate NeverFull(c: Rate, m: Buckets, steps: seq<Step>, key: string, now: real, end: real) {
    At(c, StateAfter(c, m, steps), key, end) == At(c, m, key, now) + Refill(c, end - now) - Allowed(c, m, steps, key) as real
  }

  lemma FullNow(c: Rate, m: Buckets, steps: seq<Step>, key: string, end: real)
    requires NeverFull(c, m, steps, key, StartOf(steps, 0, end), end) && At(c, m, key, StartOf(steps, 0, end)) == c.b as real
    ensures FullBefore(c, m, steps, 0, key, end)
  {
    assert steps[..0] == [] && steps[0..] == steps;
  }

  lemma FullLater(c: Rate, m: Buckets, steps: seq<Step>, i: nat, key: string, end: real)
    requires steps != [] && FullBefore(c, Next(c, m, steps[0]), steps[1..], i, key, end)
    ensures FullBefore(c, m, steps, i + 1, key, end)
  {
    assert steps[..i + 1][0] == steps[0] && steps[..i + 1][1..] == steps[1..][..i] && steps[i + 1..] == steps[1..][i..];
  }

  /** A step that does not meet a full bucket puts the tokens before it in relation to those after it. */
  lemma OneMoreStep(c: Rate, m: Buckets, steps: seq<Step>, key: string, now: real, end: real)
    requires Sound(c, m, now) && steps != [] && now <= steps[0].t <= end
    requires NeverFull(c, Next(c, m, steps[0]), steps[1..], key, steps[0].t, end)
    ensures NeverFull(c, m, steps, key, steps[0].t, end)
    ensures At(c, m, key, steps[0].t) == c.b as real || NeverFull(c, m, steps, key, now, end)
  {
    var s := steps[0];
    AtLater(c, m, key, now, s.t);
    StepTokens(c, m, s, key);
    RefillAdds(c, s.t - now, end - s.t);
    assert (s.t - now) + (end - s.t) == end - now;
  }

  lemma EndsByTail(steps: seq<Step>, end: real)
    requires steps != [] && EndsBy(steps, end)
    ensures EndsBy(steps[1..], end)
  {
    assert forall i :: 0 <= i < |steps[1..]| ==> steps[1..][i] == steps[i + 1];
  }

  /** Tokens are lost only by filling up: there is a last moment when the bucket was full, unless it
      never was. */
  lemma {:induction false} LastFull(c: Rate, m: Buckets, steps: seq<Step>, key: string, now: real, end: real)
    requires Sound(c, m, now) && Timed(steps, now) && EndsBy(steps, end) && now <= end
    ensures NeverFull(c, m, steps, key, now, end) || exists i: nat :: FullBefore(c, m, steps, i, key, end)
    decreases |steps|
  {
    if steps == [] {
      AtLater(c, m, key, now, end);
      RefillAdds(c, 0.0, 0.0);
      if At(c, m, key, end) == c.b as real {
        FullNow(c, m, steps, key, end);
      }
    } else {
      var s := steps[0];
      AtLater(c, m, key, now, s.t);
      StepTokens(c, m, s, key);
      EndsByTail(steps, end);
      LastFull(c, Next(c, m, s), steps[1..], key, s.t, end);
      if i: nat :| FullBefore(c, Next(c, m, s), steps[1..], i, key, end) {
        FullLater(c, m, steps, i, key, end);
      } else {
        OneMoreStep(c, m, steps, key, now, end);
        if At(c, m, key, s.t) == c.b as real {
          FullNow(c, m, steps, key, end);
        }
      }
    }
  }

  /** With one more the key would have `n` requests in `seconds`, which is more than the limit. */
  predicate Exceeds(c: Rate, n: nat, seconds: real) {
    n as real + 1.0 > c.b as real + c.r * seconds
  }

  /** Since step `i` the key has had all that the limit leaves room for. */
  ghost predicate UsedUp(c: Rate, steps: seq<Step>, i: nat, key: string, now: real) {
    i <= |steps| && Exceeds(c, AllowedSince(c, map[], steps, i, key), now - StartOf(steps, i, now))
  }

  lemma ExceedsRefill(c: Rate, n: nat, seconds: real)
    requires c.r >= 0.0
    ensures Exceeds(c, n, seconds) <==> n as real + 1.0 > c.b as real + Refill(c, seconds)
  {
    assert c.r == 0.0 ==> c.r * seconds == 0.0;
  }

  /** After any past, evictions included, a request is denied exactly when allowing it would give its key
      more than b + r * T requests in some window of T seconds that ends with it. */
  lemma DeniedIff(c: Rate, past: seq<Step>, key: string, now: real)
    requires c.r >= 0.0 && c.b >= 1
    requires Timed(past, 0.0) && EndsBy(past, now) && now >= 0.0
    ensures !Ask(c, StateAfter(c, map[], past), key, now).0 <==> exists i: nat :: UsedUp(c, past, i, key, now)
  {
    if !Ask(c, StateAfter(c, map[], past), key, now).0 {
      var i := OnceFull(c, past, key, now);
      ExceedsRefill(c, AllowedSince(c, map[], past, i, key), now - StartOf(past, i, now));
      assert UsedUp(c, past, i, key, now);
    }
    if i: nat :| UsedUp(c, past, i, key, now) {
      ExceedsRefill(c, AllowedSince(c, map[], past, i, key), now - StartOf(past, i, now));
      NotUsedUp(c, past, i, key, now);
    }
  }

  lemma OnceFull(c: Rate, past: seq<Step>, key: string, now: real) returns (i: nat)
    requires Timed(past, 0.0) && EndsBy(past, now) && now >= 0.0
    ensures FullBefore(c, map[], past, i, key, now)
  {
    var start := StartOf(past, 0, now);
    FreshIsFull(c, key, start);
    TimedFromStart(past, now);
    AtLater(c, map[], key, 0.0, start);
    LastFull(c, map[], past, key, start, now);
    if NeverFull(c, map[], past, key, start, now) {
      FullNow(c, map[], past, key, now);
      return 0;
    }
    i :| FullBefore(c, map[], past, i, key, now);
  }

  lemma FreshIsFull(c: Rate, key: string, now: real)
    requires now >= 0.0
    ensures At(c, map[], key, now) == c.b as real
  {
    RefillAdds(c, now, 0.0);
  }

  lemma TimedFromStart(steps: seq<Step>, end: real)
    requires Timed(steps, 0.0) && EndsBy(steps, end) && end >= 0.0
    ensures Timed(steps, StartOf(steps, 0, end)) && 0.0 <= StartOf(steps, 0, end) <= end
  {
  }

  lemma NotUsedUp(c: Rate, past: seq<Step>, i: nat, key: string, now: real)
    requires i <= |past| && Timed(past, 0.0) && EndsBy(past, now) && now >= 0.0
    ensures AllowedSince(c, map[], past, i, key) as real + At(c, StateAfter(c, map[], past), key, now)
         <= c.b as real + Refill(c, now - StartOf(past, i, now))
  {
    var start := StartOf(past, i, now);
    TimedSplit(past, i, 0.0, now);
    assert past == past[..i] + past[i..];
    StateAfterSplits(c, map[], past[..i], past[i..]);
    NoMoreThan(c, past[..i], past[i..], key, start, now);
  }

  lemma NoMoreThan(c: Rate, past: seq<Step>, window: seq<Step>, key: string, start: real, end: real)
    requires Timed(past, 0.0) && (past != [] ==> past[|past| - 1].t <= start) && 0.0 <= start <= end
    requires Timed(window, start) && EndsBy(window, end)
    ensures var m := StateAfter(c, map[], past);
            Allowed(c, m, window, key) as real + At(c, StateAfter(c, m, window), key, end) <= c.b as real + Refill(c, end - start)
  {
    var m := StateAfter(c, map[], past);
    SoundLater(c, past, start);
    TokensSpent(c, m, window, key, start, end);
    AtLater(c, m, key, start, start);
  }

  lemma {:induction false} TimedSplit(steps: seq<Step>, i: nat, start: real, end: real)
    requires i <= |steps| && Timed(steps, start) && EndsBy(steps, end) && start <= end
    ensures var s := StartOf(steps, i, end);
            && start <= s <= end
            && Timed(steps[..i], start) && (i > 0 ==> steps[i - 1].t <= s)
            && Timed(steps[i..], s) && EndsBy(steps[i..], end)
    decreases i
  {
    assert forall j :: 0 <= j < |steps[i..]| ==> steps[i..][j] == steps[i + j];
    if i > 0 {
      var rest := steps[1..];
      assert forall j :: 0 <= j < |rest| ==> rest[j] == steps[j + 1];
      TimedSplit(rest, i - 1, steps[0].t, end);
      assert steps[..i][1..] == rest[..i - 1] && steps[i..] == rest[i - 1..];
    } else if steps != [] {
      assert steps[0..] == steps;
    }
  }

  // ---------------------------------------------------------------- Retry-After

  /** No request of `key`; evictions and other keys are free. */
  predicate Quiet(steps: seq<Step>, key: string) {
    forall i :: 0 <= i < |steps| ==> steps[i].Request? ==> steps[i].key != key
  }

  lemma {:induction false} QuietTokens(c: Rate, m: Buckets, steps: seq<Step>, key: string, now: real, end: real)
    requires Sound(c, m, now) && Timed(steps, now) && EndsBy(steps, end) && now <= end && Quiet(steps, key)
    ensures At(c, StateAfter(c, m, steps), key, end) == Cap(c, At(c, m, key, now) + Refill(c, end - now))
    decreases |steps|
  {
    AtLater(c, m, key, now, end);
    if steps != [] {
      var s := steps[0];
      AtLater(c, m, key, now, s.t);
      AtLater(c, m, key, s.t, end);
      StepTokens(c, m, s, key);
      assert forall i :: 0 <= i < |steps[1..]| ==> steps[1..][i] == steps[i + 1];
      QuietTokens(c, Next(c, m, s), steps[1..], key, s.t, end);
    }
  }

  lemma WaitIsLongEnough(r: real)
    requires r > 0.0
    ensures r * (Ceil(1.0 / r) as real) >= 1.0
    ensures Ceil(1.0 / r) >= 1
  {
    var x := 1.0 / r;
    assert x * r == 1.0;
    assert Ceil(x) as real >= x;
    assert (Ceil(x) as real - x) * r >= 0.0;
    assert x <= 0.0 ==> x * r <= 0.0;
  }

  /** A key that makes no request for the Retry-After period or longer is allowed after it, denied
      before or not. */
  lemma RetryAfterIsHonoured(c: Rate, m: Buckets, steps: seq<Step>, key: string, now: real, later: real)
    requires c.r > 0.0 && c.b >= 1 && Sound(c, m, now)
    requires later >= now + RetryAfterSeconds(c) as real
    requires Timed(steps, now) && EndsBy(steps, later) && Quiet(steps, key)
    ensures Ask(c, StateAfter(c, m, steps), key, later).0
  {
    WaitRefillsOne(c, later - now);
    QuietTokens(c, m, steps, key, now, later);
    AtLater(c, m, key, now, now);
  }

  lemma WaitRefillsOne(c: Rate, wait: real)
    requires c.r > 0.0 && wait >= RetryAfterSeconds(c) as real
    ensures wait >= 1.0 && Refill(c, wait) >= 1.0
  {
    WaitIsLongEnough(c.r);
    MoreIsMore(c.r, RetryAfterSeconds(c) as real, wait);
  }

  lemma MoreIsMore(r: real, x: real, y: real)
    requires r > 0.0 && x <= y
    ensures r * x <= r * y
  {
  }

  /** No shorter whole number of seconds would do: a key whose bucket is empty is still denied then. */
  lemma RetryAfterIsLeast(c: Rate, key: string, now: real, n: nat)
    requires c.r > 0.0 && c.b >= 1 && now >= 0.0 && n < RetryAfterSeconds(c)
    ensures Sound(c, map[key := Bucket(0.0, now)], now)
    ensures !Ask(c, map[key := Bucket(0.0, now)], key, now + n as real).0
  {
    TooSmallARefill(c, n);
    EmptyIsDenied(c, key, now, n);
  }

  lemma EmptyIsDenied(c: Rate, key: string, now: real, n: nat)
    requires now >= 0.0 && Refill(c, n as real) < 1.0
    ensures Sound(c, map[key := Bucket(0.0, now)], now)
    ensures !Ask(c, map[key := Bucket(0.0, now)], key, now + n as real).0
  {
    var later := now + n as real;
    assert later - now == n as real && !(later < now);
  }

  lemma TooSmallARefill(c: Rate, n: nat)
    requires c.r > 0.0 && n < RetryAfterSeconds(c)
    ensures Refill(c, n as real) < 1.0
  {
    var wait := OneToken(c);
    BelowCeil(wait, n);
    SmallRefill(c, wait, n as real);
  }

  /** The time in which one token comes. */
  lemma OneToken(c: Rate) returns (wait: real)
    requires c.r > 0.0
    ensures Refill(c, wait) == 1.0 && RetryAfterSeconds(c) == Ceil(wait)
  {
    wait := 1.0 / c.r;
    Inverse(c.r, wait);
  }

  lemma SmallRefill(c: Rate, wait: real, x: real)
    requires c.r > 0.0 && Refill(c, wait) == 1.0 && x < wait
    ensures Refill(c, x) < 1.0
  {
    LessIsLess(c.r, x, wait);
  }

  lemma BelowCeil(x: real, n: nat)
    requires n < Ceil(x)
    ensures n as real < x
  {
    assert (-x).Floor as real + 1.0 > -x;
  }

  lemma Inverse(r: real, x: real)
    requires r > 0.0 && x == 1.0 / r
    ensures r * x == 1.0
  {
    assert x * r == 1.0;
  }

  lemma LessIsLess(r: real, x: real, y: real)
    requires r > 0.0 && x < y
    ensures r * x < r * y
  {
    var d := y - x;
    assert d > 0.0 && r * d > 0.0;
    assert r * y == r * x + r * d;
  }

  /** Without a refill there is no wait to announce. */
  lemma NoRefillNoWait(c: Rate)
    ensures RetryAfterSeconds(c) == 0 <==> c.r <= 0.0
  {
    if c.r > 0.0 {
      WaitIsLongEnough(c.r);
    }
  }
}
