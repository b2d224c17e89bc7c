/** The token buckets of `apps/server/src/auth/rateLimit.ts`, over real numbers and a clock that
    does not run backwards. */
module RateLimit {
  datatype Bucket = Bucket(tokens: real, updatedAt: int)

  /** How much a bucket holds and how long it takes to fill from empty. */
  datatype Limit = Limit(capacity: real, windowMs: int) {
    predicate Valid() {
      capacity >= 1.0 && windowMs > 0
    }
  }

  function Min(a: real, b: real): real {
    if a <= b then a else b
  }

  function Ceil(x: real): int {
    if x.Floor as real == x then x.Floor else x.Floor + 1
  }

  /** What has dripped in over `ms` milliseconds. */
  function Refill(limit: Limit, ms: int): real
    requires limit.Valid()
  {
    ms as real / limit.windowMs as real * limit.capacity
  }

  function Level(bucket: Bucket, limit: Limit, t: int): real
    requires limit.Valid()
  {
    Min(limit.capacity, bucket.tokens + Refill(limit, t - bucket.updatedAt))
  }

  /** How long until one whole token exists again. */
  function Wait(level: real, limit: Limit): int
    requires limit.Valid()
  {
    Ceil((1.0 - level) / limit.capacity * limit.windowMs as real)
  }

  /** `take`: the bucket afterwards and the wait, which is zero when the call is granted. */
  function Take(bucket: Bucket, limit: Limit, t: int): (Bucket, int)
    requires limit.Valid()
  {
    var level := Level(bucket, limit, t);
    if level < 1.0 then (Bucket(level, t), Wait(level, limit))
    else (Bucket(level - 1.0, t), 0)
  }

  predicate Granted(bucket: Bucket, limit: Limit, t: int)
    requires limit.Valid()
  {
    Take(bucket, limit, t).1 == 0
  }

  // ─── arithmetic ──────────────────────────────────────────────────────────────

  lemma ScaleMonotone(a: real, b: real, k: real)
    requires a <= b && k >= 0.0
    ensures a * k <= b * k
  {}

  lemma RefillAdds(limit: Limit, a: int, b: int)
    requires limit.Valid()
    ensures Refill(limit, a + b) == Refill(limit, a) + Refill(limit, b)
  {
    var k := limit.capacity / limit.windowMs as real;
    assert forall x: int :: Refill(limit, x) == x as real * k by {
      forall x: int
        ensures Refill(limit, x) == x as real * k
      {
        DivTimes(x as real, limit.windowMs as real, limit.capacity);
      }
    }
  }

  lemma DivTimes(x: real, w: real, c: real)
    requires w > 0.0
    ensures x / w * c == x * (c / w)
  {
    assert x / w * w == x;
    assert c / w * w == c;
    assert (x / w * c) * w == (x * (c / w)) * w;
  }

  lemma RefillPositive(limit: Limit, ms: int)
    requires limit.Valid() && ms >= 0
    ensures Refill(limit, ms) >= 0.0
  {
    assert ms as real / limit.windowMs as real >= 0.0;
  }

  /** Reading a bucket later sees what reading it in between saw, plus what dripped in since. */
  lemma LevelLater(bucket: Bucket, limit: Limit, t: int, later: int)
    requires limit.Valid() && t <= later
    ensures Level(bucket, limit, later) == Min(limit.capacity, Level(bucket, limit, t) + Refill(limit, later - t))
  {
    RefillAdds(limit, t - bucket.updatedAt, later - t);
    RefillPositive(limit, later - t);
    assert t - bucket.updatedAt + (later - t) == later - bucket.updatedAt;
  }

  lemma CeilIsLeast(x: real, w: int)
    ensures Ceil(x) <= w <==> x <= w as real
  {}

  // ─── one bucket ──────────────────────────────────────────────────────────────

  lemma DenialWaits(bucket: Bucket, limit: Limit, t: int)
    requires limit.Valid() && Level(bucket, limit, t) < 1.0
    ensures Take(bucket, limit, t).1 >= 1
  {
    var level := Level(bucket, limit, t);
    var x := (1.0 - level) / limit.capacity * limit.windowMs as real;
    assert (1.0 - level) / limit.capacity > 0.0;
    assert x > 0.0;
    CeilIsLeast(x, 0);
  }

  /** The wait a denied caller is told is the least whole number of milliseconds after which a
      call is granted. */
  lemma WaitIsLeast(bucket: Bucket, limit: Limit, t: int, w: int)
    requires limit.Valid() && !Granted(bucket, limit, t) && w >= 0
    ensures var (after, wait) := Take(bucket, limit, t);
            Granted(after, limit, t + w) <==> wait <= w
  {
    var (after, wait) := Take(bucket, limit, t);
    var missing := 1.0 - after.tokens;
    DeniedIs(bucket, limit, t);
    LevelFromNow(after, limit, t, w);
    hide *;
    CeilIsLeast(missing / limit.capacity * limit.windowMs as real, w);
    DripReaches(missing, limit, w);
    GrantedFromOne(after, limit, t + w);
    AtLeastOne(limit.capacity, after.tokens + Refill(limit, w));
  }

  lemma DeniedIs(bucket: Bucket, limit: Limit, t: int)
    requires limit.Valid() && !Granted(bucket, limit, t)
    ensures var (after, wait) := Take(bucket, limit, t);
      wait == Ceil((1.0 - after.tokens) / limit.capacity * limit.windowMs as real) && after.updatedAt == t && limit.capacity >= 1.0
  {
    hide Level;
  }

  lemma LevelFromNow(after: Bucket, limit: Limit, t: int, w: int)
    requires limit.Valid() && after.updatedAt == t
    ensures Level(after, limit, t + w) == Min(limit.capacity, after.tokens + Refill(limit, w))
  {}

  lemma AtLeastOne(a: real, b: real)
    ensures Min(a, b) >= 1.0 <==> a >= 1.0 && b >= 1.0
  {}

  lemma GrantedFromOne(bucket: Bucket, limit: Limit, t: int)
    requires limit.Valid()
    ensures Granted(bucket, limit, t) <==> Level(bucket, limit, t) >= 1.0
  {
    if Level(bucket, limit, t) < 1.0 {
      DenialWaits(bucket, limit, t);
    }
  }

  lemma DripReaches(missing: real, limit: Limit, w: int)
    requires limit.Valid() && w >= 0
    ensures missing <= Refill(limit, w) <==> missing / limit.capacity * limit.windowMs as real <= w as real
  {
    var c, m := limit.capacity, limit.windowMs as real;
    assert missing == missing / c * c;
    assert w as real == w as real / m * m;
    if missing / c <= w as real / m {
      ScaleMonotone(missing / c, w as real / m, c);
      ScaleMonotone(missing / c, w as real / m, m);
    } else {
      assert (missing / c - w as real / m) * c > 0.0;
      assert (missing / c - w as real / m) * m > 0.0;
    }
  }

  /** The waits of a series of calls against one bucket. */
  function Waits(bucket: Bucket, limit: Limit, times: seq<int>): (waits: seq<int>)
    requires limit.Valid()
    ensures |waits| == |times|
    decreases |times|
  {
    if times == [] then []
    else
      var (after, wait) := Take(bucket, limit, times[0]);
      [wait] + Waits(after, limit, times[1..])
  }

  lemma DenialKeepsLevels(bucket: Bucket, limit: Limit, t: int, later: int)
    requires limit.Valid() && !Granted(bucket, limit, t) && t <= later
    ensures Level(Take(bucket, limit, t).0, limit, later) == Level(bucket, limit, later)
  {
    GrantedFromOne(bucket, limit, t);
    LevelLater(bucket, limit, t, later);
    assert Take(bucket, limit, t).0 == Bucket(Level(bucket, limit, t), t);
  }

  /** A denied call changes no later answer: asking in vain costs nothing. */
  lemma DeniedCallLeavesNoTrace(bucket: Bucket, limit: Limit, t: int, times: seq<int>)
    requires limit.Valid() && !Granted(bucket, limit, t)
    requires times != [] ==> t <= times[0]
    ensures Waits(Take(bucket, limit, t).0, limit, times) == Waits(bucket, limit, times)
  {
    if times != [] {
      DenialKeepsLevels(bucket, limit, t, times[0]);
      TakeSeesTheLevel(Take(bucket, limit, t).0, bucket, limit, times[0]);
    }
  }

  lemma TakeSeesTheLevel(a: Bucket, b: Bucket, limit: Limit, t: int)
    requires limit.Valid() && Level(a, limit, t) == Level(b, limit, t)
    ensures Take(a, limit, t) == Take(b, limit, t)
  {}

  predicate Ascending(times: seq<int>) {
    forall i, j | 0 <= i < j < |times| :: times[i] <= times[j]
  }

  function Grants(bucket: Bucket, limit: Limit, times: seq<int>): nat
    requires limit.Valid()
    decreases |times|
  {
    if times == [] then 0
    else
      var (after, wait) := Take(bucket, limit, times[0]);
      (if wait == 0 then 1 else 0) + Grants(after, limit, times[1..])
  }

  lemma {:induction false} GrantsAreCovered(bucket: Bucket, limit: Limit, times: seq<int>)
    requires limit.Valid() && times != [] && Ascending(times) && bucket.tokens >= 0.0
    requires bucket.updatedAt <= times[0]
    ensures Grants(bucket, limit, times) as real
         <= Level(bucket, limit, times[0]) + Refill(limit, times[|times| - 1] - times[0])
    decreases |times|
  {
    var (after, wait) := Take(bucket, limit, times[0]);
    RefillPositive(limit, times[0] - bucket.updatedAt);
    RefillPositive(limit, times[|times| - 1] - times[0]);
    if Level(bucket, limit, times[0]) < 1.0 {
      DenialWaits(bucket, limit, times[0]);
    }
    if |times| > 1 {
      GrantsAreCovered(after, limit, times[1..]);
      RefillAdds(limit, times[1] - times[0], times[|times| - 1] - times[1]);
      assert times[1] - times[0] + (times[|times| - 1] - times[1]) == times[|times| - 1] - times[0];
    } else {
      assert times[1..] == [];
    }
  }

  /** Whatever the callers do, in any stretch of time a bucket grants at most its capacity plus
      what drips in meanwhile. */
  lemma GrantsAreBounded(bucket: Bucket, limit: Limit, times: seq<int>)
    requires limit.Valid() && times != [] && Ascending(times) && bucket.tokens >= 0.0
    requires bucket.updatedAt <= times[0]
    ensures Grants(bucket, limit, times) as real
         <= limit.capacity + Refill(limit, times[|times| - 1] - times[0])
  {
    GrantsAreCovered(bucket, limit, times);
    hide Refill, Grants, Ascending;
  }

  // ─── a map of buckets, with and without eviction ─────────────────────────────

  type Buckets = map<string, Bucket>

  /** Maps smaller than this are left alone. */
  const EVICT_FROM: nat := 512

  function Lookup(buckets: Buckets, key: string, limit: Limit, t: int): Bucket {
    if key in buckets then buckets[key] else Bucket(limit.capacity, t)
  }

  function Longer(a: int, b: int): int {
    if a >= b then a else b
  }

  function Evicted(buckets: Buckets, cutoff: int): Buckets {
    map key | key in buckets && buckets[key].updatedAt >= cutoff :: buckets[key]
  }

  function EvictIdle(buckets: Buckets, idleEvictMs: int, limit: Limit, t: int): Buckets {
    if |buckets| < EVICT_FROM then buckets
    else Evicted(buckets, t - Longer(idleEvictMs, limit.windowMs))
  }

  function CheckKey(buckets: Buckets, key: string, limit: Limit, t: int): (Buckets, int)
    requires limit.Valid()
  {
    var (after, wait) := Take(Lookup(buckets, key, limit, t), limit, t);
    (buckets[key := after], wait)
  }

  datatype Ask = Ask(key: string, t: int)

  function AnswersEvicting(buckets: Buckets, idleEvictMs: int, limit: Limit, asks: seq<Ask>): seq<int>
    requires limit.Valid()
    decreases |asks|
  {
    if asks == [] then []
    else
      var (after, wait) := CheckKey(EvictIdle(buckets, idleEvictMs, limit, asks[0].t), asks[0].key, limit, asks[0].t);
      [wait] + AnswersEvicting(after, idleEvictMs, limit, asks[1..])
  }

  function AnswersKeeping(buckets: Buckets, limit: Limit, asks: seq<Ask>): seq<int>
    requires limit.Valid()
    decreases |asks|
  {
    if asks == [] then []
    else
      var (after, wait) := CheckKey(buckets, asks[0].key, limit, asks[0].t);
      [wait] + AnswersKeeping(after, limit, asks[1..])
  }

  ghost predicate Brim(bucket: Bucket, limit: Limit, t: int)
    requires limit.Valid()
  {
    bucket.tokens + Refill(limit, t - bucket.updatedAt) >= limit.capacity
  }

  /** The evicting map holds the same buckets, and what it has dropped is full again. */
  ghost predicate Mirrors(evicting: Buckets, keeping: Buckets, limit: Limit, t: int)
    requires limit.Valid()
  {
    && (forall key | key in evicting :: key in keeping && evicting[key] == keeping[key])
    && (forall key | key in keeping :: keeping[key].tokens >= 0.0 && keeping[key].updatedAt <= t)
    && (forall key | key in keeping && key !in evicting :: Brim(keeping[key], limit, t))
  }

  lemma BrimStays(bucket: Bucket, limit: Limit, t: int, later: int)
    requires limit.Valid() && Brim(bucket, limit, t) && t <= later
    ensures Brim(bucket, limit, later)
  {
    RefillAdds(limit, t - bucket.updatedAt, later - t);
    RefillPositive(limit, later - t);
    assert t - bucket.updatedAt + (later - t) == later - bucket.updatedAt;
  }

  /** A bucket left alone for a whole window is full. */
  lemma IdleIsFull(bucket: Bucket, limit: Limit, t: int)
    requires limit.Valid() && bucket.tokens >= 0.0
    requires (t - bucket.updatedAt) as real >= limit.windowMs as real
    ensures Brim(bucket, limit, t)
  {
    var ms := (t - bucket.updatedAt) as real;
    assert ms / limit.windowMs as real >= 1.0;
    ScaleMonotone(1.0, ms / limit.windowMs as real, limit.capacity);
  }

  lemma EvictionMirrors(evicting: Buckets, keeping: Buckets, idleEvictMs: int, limit: Limit, before: int, t: int)
    requires limit.Valid() && Mirrors(evicting, keeping, limit, before) && before <= t
    ensures Mirrors(EvictIdle(evicting, idleEvictMs, limit, t), keeping, limit, t)
  {
    var kept := EvictIdle(evicting, idleEvictMs, limit, t);
    forall key | key in keeping && key !in kept
      ensures Brim(keeping[key], limit, t)
    {
      if key in evicting {
        IdleIsFull(keeping[key], limit, t);
      } else {
        BrimStays(keeping[key], limit, before, t);
      }
    }
  }

  lemma CheckMirrors(evicting: Buckets, keeping: Buckets, limit: Limit, key: string, t: int)
    requires limit.Valid() && Mirrors(evicting, keeping, limit, t)
    ensures var (e, waitE) := CheckKey(evicting, key, limit, t);
            var (k, waitK) := CheckKey(keeping, key, limit, t);
            waitE == waitK && Mirrors(e, k, limit, t)
  {
    var left := Lookup(evicting, key, limit, t);
    var right := Lookup(keeping, key, limit, t);
    assert Refill(limit, 0) == 0.0;
    assert Level(left, limit, t) == Level(right, limit, t);
    RefillPositive(limit, t - right.updatedAt);
    assert Take(left, limit, t) == Take(right, limit, t);
    assert Take(right, limit, t).0.tokens >= 0.0;
  }

  ghost predicate InOrder(asks: seq<Ask>, from: int) {
    && (asks != [] ==> from <= asks[0].t)
    && forall i, j | 0 <= i < j < |asks| :: asks[i].t <= asks[j].t
  }

  lemma {:induction false} MirroredAnswers(evicting: Buckets, keeping: Buckets, idleEvictMs: int, limit: Limit, asks: seq<Ask>, t: int)
    requires limit.Valid() && Mirrors(evicting, keeping, limit, t) && InOrder(asks, t)
    ensures AnswersEvicting(evicting, idleEvictMs, limit, asks) == AnswersKeeping(keeping, limit, asks)
    decreases |asks|
  {
    if asks != [] {
      var ask := asks[0];
      EvictionMirrors(evicting, keeping, idleEvictMs, limit, t, ask.t);
      CheckMirrors(EvictIdle(evicting, idleEvictMs, limit, ask.t), keeping, limit, ask.key, ask.t);
      MirroredAnswers(CheckKey(EvictIdle(evicting, idleEvictMs, limit, ask.t), ask.key, limit, ask.t).0,
                      CheckKey(keeping, ask.key, limit, ask.t).0, idleEvictMs, limit, asks[1..], ask.t);
    }
  }

  /** Dropping idle peers is invisible: every sequence of calls is answered, to the millisecond,
      as it would be by a map that never forgets. */
  lemma EvictionIsInvisible(idleEvictMs: int, limit: Limit, asks: seq<Ask>)
    requires limit.Valid() && InOrder(asks, if asks == [] then 0 else asks[0].t)
    ensures AnswersEvicting(map[], idleEvictMs, limit, asks) == AnswersKeeping(map[], limit, asks)
  {
    MirroredAnswers(map[], map[], idleEvictMs, limit, asks, if asks == [] then 0 else asks[0].t);
  }

  // ─── per-code backoff ────────────────────────────────────────────────────────

  datatype CodeState = CodeState(bucket: Bucket, failures: nat, blockedUntil: int)

  type Codes = map<string, CodeState>

  datatype Backoff = Backoff(baseMs: nat, maxMs: nat)

  function Pow2(n: nat): nat {
    if n == 0 then 1 else 2 * Pow2(n - 1)
  }

  function Least(a: nat, b: nat): nat {
    if a <= b then a else b
  }

  function Penalty(backoff: Backoff, failures: nat): nat
    requires failures >= 1
  {
    Least(backoff.maxMs, backoff.baseMs * Pow2(failures - 1))
  }

  /** Consecutive failures double the wait until it reaches the ceiling and stays there. */
  lemma PenaltyDoubles(backoff: Backoff, failures: nat)
    requires failures >= 1
    ensures Penalty(backoff, failures + 1) == Least(backoff.maxMs, 2 * Penalty(backoff, failures))
    ensures Penalty(backoff, failures) <= Penalty(backoff, failures + 1) <= backoff.maxMs
  {
    var raw := backoff.baseMs * Pow2(failures - 1);
    assert backoff.baseMs * Pow2(failures) == 2 * raw by {
      assert Pow2(failures) == 2 * Pow2(failures - 1);
      Reassociate(backoff.baseMs, Pow2(failures - 1));
    }
  }

  lemma Reassociate(a: nat, b: nat)
    ensures a * (2 * b) == 2 * (a * b)
  {}

  function EvictIdleCodes(codes: Codes, idleEvictMs: int, limit: Limit, t: int): Codes {
    if |codes| < EVICT_FROM then codes
    else map key | key in codes && codes[key].bucket.updatedAt >= t - Longer(idleEvictMs, limit.windowMs) :: codes[key]
  }

  function CheckCode(codes: Codes, idleEvictMs: int, limit: Limit, key: string, t: int): (Codes, int)
    requires limit.Valid()
  {
    var kept := EvictIdleCodes(codes, idleEvictMs, limit, t);
    var state := if key in kept then kept[key] else CodeState(Bucket(limit.capacity, t), 0, 0);
    if state.blockedUntil > t then (kept[key := state], state.blockedUntil - t)
    else
      var (after, wait) := Take(state.bucket, limit, t);
      (kept[key := state.(bucket := after)], wait)
  }

  function PenaliseCode(codes: Codes, backoff: Backoff, key: string, t: int): Codes {
    if key !in codes then codes
    else
      var state := codes[key];
      codes[key := CodeState(state.bucket.(updatedAt := t), state.failures + 1,
                             t + Penalty(backoff, state.failures + 1))]
  }

  datatype CodeEvent = Attempt(key: string, t: int) | Failure(key: string, t: int)

  function AfterEvent(codes: Codes, idleEvictMs: int, limit: Limit, backoff: Backoff, e: CodeEvent): Codes
    requires limit.Valid()
  {
    match e
    case Attempt(key, t) => CheckCode(codes, idleEvictMs, limit, key, t).0
    case Failure(key, t) => PenaliseCode(codes, backoff, key, t)
  }

  function AfterEvents(codes: Codes, idleEvictMs: int, limit: Limit, backoff: Backoff, events: seq<CodeEvent>): Codes
    requires limit.Valid()
    decreases |events|
  {
    if events == [] then codes
    else AfterEvents(AfterEvent(codes, idleEvictMs, limit, backoff, events[0]), idleEvictMs, limit, backoff, events[1..])
  }

  /** How long an idle row is kept at the least. */
  function Kept(idleEvictMs: int, limit: Limit): int {
    Longer(idleEvictMs, limit.windowMs)
  }

  /** The code is blocked until `until` at the least, and its row was touched no earlier than `since`. */
  ghost predicate InForce(codes: Codes, backoff: Backoff, key: string, since: int, until: int, now: int) {
    && key in codes
    && codes[key].failures >= 1
    && codes[key].blockedUntil >= until
    && codes[key].bucket.updatedAt >= since
    && until <= now + Penalty(backoff, codes[key].failures)
  }

  lemma EventKeepsBlock(codes: Codes, idleEvictMs: int, limit: Limit, backoff: Backoff, e: CodeEvent, key: string, since: int, until: int, now: int)
    requires limit.Valid() && until - since <= Kept(idleEvictMs, limit) + 1
    requires InForce(codes, backoff, key, since, until, now) && since <= now <= e.t < until
    ensures InForce(AfterEvent(codes, idleEvictMs, limit, backoff, e), backoff, key, since, until, e.t)
  {
    hide Penalty, Take;
    if e.Failure? && e.key == key {
      PenaltyDoubles(backoff, codes[key].failures);
    }
  }

  ghost predicate WithinBlock(events: seq<CodeEvent>, now: int, until: int) {
    && (events != [] ==> now <= events[0].t)
    && (forall i | 0 <= i < |events| :: events[i].t < until)
    && forall i, j | 0 <= i < j < |events| :: events[i].t <= events[j].t
  }

  lemma {:induction false} EventsKeepBlock(codes: Codes, idleEvictMs: int, limit: Limit, backoff: Backoff, events: seq<CodeEvent>, key: string, since: int, until: int, now: int)
    requires limit.Valid() && until - since <= Kept(idleEvictMs, limit) + 1 && since <= now
    requires InForce(codes, backoff, key, since, until, now) && WithinBlock(events, now, until)
    ensures var after := AfterEvents(codes, idleEvictMs, limit, backoff, events);
            InForce(after, backoff, key, since, until, if events == [] then now else events[|events| - 1].t)
    decreases |events|
  {
    if events != [] {
      EventKeepsBlock(codes, idleEvictMs, limit, backoff, events[0], key, since, until, now);
      EventsKeepBlock(AfterEvent(codes, idleEvictMs, limit, backoff, events[0]), idleEvictMs, limit, backoff, events[1..], key, since, until, events[0].t);
    }
  }

  /** After a failure of `key` at `t` and these events, an attempt is told less than the penalty still to come. */
  ghost predicate Lifted(codes: Codes, idleEvictMs: int, limit: Limit, backoff: Backoff, key: string, t: int, events: seq<CodeEvent>, attempt: int)
    requires limit.Valid() && key in codes
  {
    var until := t + Penalty(backoff, codes[key].failures + 1);
    var now := AfterEvents(PenaliseCode(codes, backoff, key, t), idleEvictMs, limit, backoff, events);
    && WithinBlock(events, t, until) && t <= attempt < until
    && (events != [] ==> events[|events| - 1].t <= attempt)
    && CheckCode(now, idleEvictMs, limit, key, attempt).1 < until - attempt
  }

  /** A failed claim blocks its code for the whole penalty: whatever is tried meanwhile, against
      this code or any other, an attempt within it is refused until the penalty is over. */
  lemma PenaltyIsServed(codes: Codes, idleEvictMs: int, limit: Limit, backoff: Backoff, key: string, t: int, events: seq<CodeEvent>, attempt: int)
    requires limit.Valid() && key in codes
    requires Penalty(backoff, codes[key].failures + 1) <= Kept(idleEvictMs, limit) + 1
    ensures !Lifted(codes, idleEvictMs, limit, backoff, key, t, events, attempt)
  {
    var until := t + Penalty(backoff, codes[key].failures + 1);
    var blocked := PenaliseCode(codes, backoff, key, t);
    assert InForce(blocked, backoff, key, t, until, t);
    if WithinBlock(events, t, until) && t <= attempt < until {
      EventsKeepBlock(blocked, idleEvictMs, limit, backoff, events, key, t, until, t);
    }
    hide Penalty, Take, AfterEvents;
  }

  // ─── a full map forgets ──────────────────────────────────────────────────────

  /** Codes that differ by their length. */
  function Unused(length: nat): (code: string)
    ensures |code| == length
  {
    seq(length, _ => 'A')
  }

  lemma {:induction false} LongerThanAll(keys: set<string>) returns (length: nat)
    ensures forall key | key in keys :: |key| < length
  {
    if keys == {} {
      length := 0;
    } else {
      var key :| key in keys;
      var rest := LongerThanAll(keys - {key});
      length := rest + |key| + 1;
      assert forall other | other in keys :: other == key || other in keys - {key};
    }
  }

  /** One attempt each against `n` unused codes, at one moment. */
  function Flood(length: nat, n: nat, t: int): (events: seq<CodeEvent>)
    ensures |events| == n && forall e | e in events :: e.t == t
  {
    if n == 0 then [] else Flood(length, n - 1, t) + [Attempt(Unused(length + n - 1), t)]
  }

  lemma {:induction false} EventsJoin(codes: Codes, idleEvictMs: int, limit: Limit, backoff: Backoff, events: seq<CodeEvent>, last: CodeEvent)
    requires limit.Valid()
    ensures AfterEvents(codes, idleEvictMs, limit, backoff, events + [last])
         == AfterEvent(AfterEvents(codes, idleEvictMs, limit, backoff, events), idleEvictMs, limit, backoff, last)
    decreases |events|
  {
    if events == [] {
      assert (events + [last])[1..] == [];
    } else {
      EventsJoin(AfterEvent(codes, idleEvictMs, limit, backoff, events[0]), idleEvictMs, limit, backoff, events[1..], last);
      assert (events + [last])[1..] == events[1..] + [last];
    }
  }

  /** Each attempt of the flood adds a row touched at `t`; the rows touched then all stay. */
  lemma {:induction false} FloodFills(codes: Codes, idleEvictMs: int, limit: Limit, backoff: Backoff, key: string, length: nat, n: nat, t: int)
    requires limit.Valid() && idleEvictMs >= 0 && t >= 0
    requires forall other | other in codes :: |other| < length
    requires key in codes && codes[key].bucket.updatedAt == t
    ensures var after := AfterEvents(codes, idleEvictMs, limit, backoff, Flood(length, n, t));
      && key in after && after[key] == codes[key]
      && (forall i: nat | length <= i < length + n :: Unused(i) in after && after[Unused(i)].bucket.updatedAt == t)
      && (forall other | other in after :: |other| < length + n)
    decreases n
  {
    hide CheckCode, PenaliseCode, Unused;
    if n > 0 {
      FloodFills(codes, idleEvictMs, limit, backoff, key, length, n - 1, t);
      EventsJoin(codes, idleEvictMs, limit, backoff, Flood(length, n - 1, t), Attempt(Unused(length + n - 1), t));
      var before := AfterEvents(codes, idleEvictMs, limit, backoff, Flood(length, n - 1, t));
      AttemptAddsRow(before, idleEvictMs, limit, Unused(length + n - 1), t);
    }
  }

  lemma AttemptAddsRow(codes: Codes, idleEvictMs: int, limit: Limit, added: string, t: int)
    requires limit.Valid() && idleEvictMs >= 0 && t >= 0 && added !in codes
    ensures var after := CheckCode(codes, idleEvictMs, limit, added, t).0;
      && after.Keys <= codes.Keys + {added}
      && added in after && after[added].bucket.updatedAt == t
      && forall key | key in codes && codes[key].bucket.updatedAt == t :: key in after && after[key] == codes[key]
  {}

  lemma ManyRows(codes: Codes, length: nat, n: nat)
    requires forall i: nat | length <= i < length + n :: Unused(i) in codes
    ensures |codes| >= n
  {
    var rows := UnusedRows(length, n);
    assert rows <= codes.Keys;
    SubsetSize(rows, codes.Keys);
  }

  ghost function UnusedRows(length: nat, n: nat): (rows: set<string>)
    ensures |rows| == n && forall key | key in rows :: length <= |key| < length + n && key == Unused(|key|)
  {
    if n == 0 then {} else UnusedRows(length, n - 1) + {Unused(length + n - 1)}
  }

  lemma SubsetSize<T>(a: set<T>, b: set<T>)
    requires a <= b
    ensures |a| <= |b|
  {
    assert b == a + (b - a);
  }

  /** A row that has been idle too long in a full map is forgotten, and the attempt that follows
      is granted like the first one. */
  lemma ForgottenIsGranted(codes: Codes, idleEvictMs: int, limit: Limit, key: string, t: int)
    requires limit.Valid() && t >= 0 && |codes| >= EVICT_FROM
    requires key in codes && codes[key].bucket.updatedAt < t - Kept(idleEvictMs, limit)
    ensures CheckCode(codes, idleEvictMs, limit, key, t).1 == 0
  {
    assert key !in EvictIdleCodes(codes, idleEvictMs, limit, t);
    assert Level(Bucket(limit.capacity, t), limit, t) == limit.capacity;
  }

  /** The penalty of a failure can be cut short by enough other codes exactly when it outlasts the
      time an idle row is kept. (The defaults keep rows for thirty minutes and block for fifteen
      at most.) */
  lemma PenaltyCanBeLiftedExactlyWhenItOutlastsTheRow(codes: Codes, idleEvictMs: int, limit: Limit, backoff: Backoff, key: string, t: int)
    requires limit.Valid() && idleEvictMs >= 0 && t >= 0 && key in codes
    ensures (exists events, attempt :: Lifted(codes, idleEvictMs, limit, backoff, key, t, events, attempt))
        <==> Penalty(backoff, codes[key].failures + 1) > Kept(idleEvictMs, limit) + 1
  {
    if Penalty(backoff, codes[key].failures + 1) > Kept(idleEvictMs, limit) + 1 {
      FloodLifts(codes, idleEvictMs, limit, backoff, key, t);
    } else {
      forall events, attempt ensures !Lifted(codes, idleEvictMs, limit, backoff, key, t, events, attempt) {
        PenaltyIsServed(codes, idleEvictMs, limit, backoff, key, t, events, attempt);
      }
    }
  }

  lemma FloodLifts(codes: Codes, idleEvictMs: int, limit: Limit, backoff: Backoff, key: string, t: int)
    requires limit.Valid() && idleEvictMs >= 0 && t >= 0 && key in codes
    requires Penalty(backoff, codes[key].failures + 1) > Kept(idleEvictMs, limit) + 1
    ensures exists events, attempt :: Lifted(codes, idleEvictMs, limit, backoff, key, t, events, attempt)
  {
    var blocked := PenaliseCode(codes, backoff, key, t);
    var length := LongerThanAll(blocked.Keys);
    var events := Flood(length, EVICT_FROM, t);
    var attempt := t + Kept(idleEvictMs, limit) + 1;
    var now := AfterEvents(blocked, idleEvictMs, limit, backoff, events);
    hide Penalty, Take, AfterEvents, Flood, CheckCode;
    FloodFills(blocked, idleEvictMs, limit, backoff, key, length, EVICT_FROM, t);
    ManyRows(now, length, EVICT_FROM);
    ForgottenIsGranted(now, idleEvictMs, limit, key, attempt);
    assert Lifted(codes, idleEvictMs, limit, backoff, key, t, events, attempt);
  }

  /** The count of failures goes with the row: the next failure starts at the base again exactly
      when there was none before it or its row was forgotten. */
  lemma NextPenaltyStartsOver(codes: Codes, idleEvictMs: int, limit: Limit, backoff: Backoff, key: string, t: int)
    requires limit.Valid() && key in codes
    ensures var forgotten := |codes| >= EVICT_FROM && codes[key].bucket.updatedAt < t - Kept(idleEvictMs, limit);
            var next := PenaliseCode(CheckCode(codes, idleEvictMs, limit, key, t).0, backoff, key, t);
            && key in next
            && next[key].failures == (if forgotten then 1 else codes[key].failures + 1)
            && next[key].blockedUntil == t + Penalty(backoff, next[key].failures)
  {
    hide Penalty, Take;
  }
}
