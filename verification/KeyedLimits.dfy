/** What the maps of the limiter come to for one key: its own bucket, whoever else calls. */
module KeyedLimits {
  import opened RateLimit

  // ─── codes ───────────────────────────────────────────────────────────────────

  /** The waits that the attempts at `key` are told. */
  function Told(codes: Codes, idleEvictMs: int, limit: Limit, backoff: Backoff, events: seq<CodeEvent>, key: string): seq<int>
    requires limit.Valid()
    decreases |events|
  {
    if events == [] then []
    else
      var e := events[0];
      (if e.Attempt? && e.key == key then [CheckCode(codes, idleEvictMs, limit, key, e.t).1] else [])
      + Told(AfterEvent(codes, idleEvictMs, limit, backoff, e), idleEvictMs, limit, backoff, events[1..], key)
  }

  function AttemptsAt(events: seq<CodeEvent>, key: string): seq<int> {
    if events == [] then []
    else (if events[0].Attempt? && events[0].key == key then [events[0].t] else []) + AttemptsAt(events[1..], key)
  }

  ghost predicate Ordered(events: seq<CodeEvent>, now: int) {
    && (events != [] ==> now <= events[0].t)
    && forall i, j | 0 <= i < j < |events| :: events[i].t <= events[j].t
  }

  predicate NoFailure(events: seq<CodeEvent>, key: string) {
    forall e | e in events :: e.Failure? ==> e.key != key
  }

  /** The bucket an attempt at `key` meets: its row's, or a full one when it has none. */
  function BucketOf(codes: Codes, key: string, limit: Limit, now: int): Bucket {
    if key in codes then codes[key].bucket else Bucket(limit.capacity, now)
  }

  /** The row still holds this bucket, or it was dropped when the bucket was full again. */
  ghost predicate Follows(codes: Codes, key: string, limit: Limit, bucket: Bucket, t: int)
    requires limit.Valid()
  {
    && bucket.tokens >= 0.0 && bucket.updatedAt <= t && t >= 0
    && (key in codes ==> codes[key].bucket == bucket && codes[key].blockedUntil <= t)
    && (key !in codes ==> Brim(bucket, limit, t))
  }

  lemma BrimIsFull(bucket: Bucket, limit: Limit, t: int)
    requires limit.Valid() && Brim(bucket, limit, t)
    ensures Level(bucket, limit, t) == limit.capacity
  {}

  lemma FreshIsFull(limit: Limit, t: int)
    requires limit.Valid()
    ensures Brim(Bucket(limit.capacity, t), limit, t)
  {
    assert Refill(limit, 0) == 0.0;
  }

  /** Time passes, and the row may be dropped. */
  lemma EvictionFollows(codes: Codes, idleEvictMs: int, key: string, limit: Limit, bucket: Bucket, now: int, t: int)
    requires limit.Valid() && Follows(codes, key, limit, bucket, now) && now <= t
    ensures Follows(EvictIdleCodes(codes, idleEvictMs, limit, t), key, limit, bucket, t)
  {
    hide Brim;
    if key !in codes {
      BrimStays(bucket, limit, now, t);
    } else if key !in EvictIdleCodes(codes, idleEvictMs, limit, t) {
      IdleIsFull(bucket, limit, t);
    }
  }

  lemma TakenIsSane(bucket: Bucket, limit: Limit, t: int)
    requires limit.Valid() && bucket.tokens >= 0.0 && bucket.updatedAt <= t
    ensures Take(bucket, limit, t).0.tokens >= 0.0 && Take(bucket, limit, t).0.updatedAt == t
  {
    RefillPositive(limit, t - bucket.updatedAt);
  }

  lemma AttemptFollows(codes: Codes, idleEvictMs: int, key: string, limit: Limit, bucket: Bucket, now: int, t: int)
    requires limit.Valid() && Follows(codes, key, limit, bucket, now) && now <= t
    ensures var (after, wait) := CheckCode(codes, idleEvictMs, limit, key, t);
      && wait == Take(bucket, limit, t).1
      && Follows(after, key, limit, Take(bucket, limit, t).0, t)
  {
    EvictionFollows(codes, idleEvictMs, key, limit, bucket, now, t);
    TakenIsSane(bucket, limit, t);
    if key !in EvictIdleCodes(codes, idleEvictMs, limit, t) {
      BrimIsFull(bucket, limit, t);
      FreshIsFull(limit, t);
      BrimIsFull(Bucket(limit.capacity, t), limit, t);
      TakeSeesTheLevel(bucket, Bucket(limit.capacity, t), limit, t);
    }
    hide Take, Brim, EvictIdleCodes;
  }

  lemma OtherFollows(codes: Codes, idleEvictMs: int, limit: Limit, backoff: Backoff, e: CodeEvent, key: string, bucket: Bucket, now: int)
    requires limit.Valid() && Follows(codes, key, limit, bucket, now) && now <= e.t && e.key != key
    ensures Follows(AfterEvent(codes, idleEvictMs, limit, backoff, e), key, limit, bucket, e.t)
  {
    hide Take, Brim, Penalty;
    EvictionFollows(codes, idleEvictMs, key, limit, bucket, now, e.t);
    if e.Failure? && key !in codes {
      BrimStays(bucket, limit, now, e.t);
    }
  }

  lemma {:induction false} ToldFollows(codes: Codes, idleEvictMs: int, limit: Limit, backoff: Backoff, events: seq<CodeEvent>, key: string, bucket: Bucket, now: int)
    requires limit.Valid() && Follows(codes, key, limit, bucket, now)
    requires Ordered(events, now) && NoFailure(events, key)
    ensures Told(codes, idleEvictMs, limit, backoff, events, key) == Waits(bucket, limit, AttemptsAt(events, key))
    decreases |events|
  {
    hide Follows, CheckCode, PenaliseCode, Take;
    if events != [] {
      var e, rest := events[0], events[1..];
      assert e in events && forall x | x in rest :: x in events;
      var after := AfterEvent(codes, idleEvictMs, limit, backoff, e);
      if e.key == key {
        AttemptFollows(codes, idleEvictMs, key, limit, bucket, now, e.t);
        ToldFollows(after, idleEvictMs, limit, backoff, rest, key, Take(bucket, limit, e.t).0, e.t);
        assert ([e.t] + AttemptsAt(rest, key))[1..] == AttemptsAt(rest, key);
      } else {
        OtherFollows(codes, idleEvictMs, limit, backoff, e, key, bucket, now);
        ToldFollows(after, idleEvictMs, limit, backoff, rest, key, bucket, e.t);
        assert [] + AttemptsAt(rest, key) == AttemptsAt(rest, key);
        assert [] + Told(after, idleEvictMs, limit, backoff, rest, key) == Told(after, idleEvictMs, limit, backoff, rest, key);
      }
    }
  }

  // ─── in every run ────────────────────────────────────────────────────────────

  /** No row holds less than nothing, or was touched in the future. */
  ghost predicate Sane(codes: Codes, now: int) {
    forall key | key in codes :: codes[key].bucket.tokens >= 0.0 && codes[key].bucket.updatedAt <= now
  }

  lemma EventKeepsSane(codes: Codes, idleEvictMs: int, limit: Limit, backoff: Backoff, e: CodeEvent, now: int)
    requires limit.Valid() && Sane(codes, now) && now <= e.t
    ensures Sane(AfterEvent(codes, idleEvictMs, limit, backoff, e), e.t)
  {
    var kept := EvictIdleCodes(codes, idleEvictMs, limit, e.t);
    TakenIsSane(BucketOf(kept, e.key, limit, e.t), limit, e.t);
    hide Take, Penalty;
  }

  lemma {:induction false} EveryRunIsSane(codes: Codes, idleEvictMs: int, limit: Limit, backoff: Backoff, events: seq<CodeEvent>, now: int)
    requires limit.Valid() && Sane(codes, now) && Ordered(events, now)
    ensures Sane(AfterEvents(codes, idleEvictMs, limit, backoff, events), if events == [] then now else events[|events| - 1].t)
    decreases |events|
  {
    hide Sane;
    if events != [] {
      EventKeepsSane(codes, idleEvictMs, limit, backoff, events[0], now);
      EveryRunIsSane(AfterEvent(codes, idleEvictMs, limit, backoff, events[0]), idleEvictMs, limit, backoff, events[1..], events[0].t);
    }
  }

  /** After any beginning, once the penalty of a code is over and until it fails again: the attempts
      at it are told what its bucket alone would tell them. Attempts and failures at other codes, and
      the rows that are dropped to make room, change none of these answers. */
  lemma CodeAnswersAreItsBuckets(before: seq<CodeEvent>, idleEvictMs: int, limit: Limit, backoff: Backoff, events: seq<CodeEvent>, key: string, now: int)
    requires limit.Valid() && Ordered(before + events, 0)
    requires (before == [] ==> now == 0) && (before != [] ==> now == before[|before| - 1].t)
    requires var codes := AfterEvents(map[], idleEvictMs, limit, backoff, before);
      key in codes ==> codes[key].blockedUntil <= now
    requires NoFailure(events, key)
    ensures var codes := AfterEvents(map[], idleEvictMs, limit, backoff, before);
      Told(codes, idleEvictMs, limit, backoff, events, key) == Waits(BucketOf(codes, key, limit, now), limit, AttemptsAt(events, key))
  {
    var codes := AfterEvents(map[], idleEvictMs, limit, backoff, before);
    InTwoParts(before, events, now);
    hide AfterEvents, Waits, Told, Brim;
    EveryRunIsSane(map[], idleEvictMs, limit, backoff, before, 0);
    FreshIsFull(limit, now);
    ToldFollows(codes, idleEvictMs, limit, backoff, events, key, BucketOf(codes, key, limit, now), now);
  }

  lemma InTwoParts(before: seq<CodeEvent>, events: seq<CodeEvent>, now: int)
    requires Ordered(before + events, 0)
    requires (before == [] ==> now == 0) && (before != [] ==> now == before[|before| - 1].t)
    ensures Ordered(before, 0) && Ordered(events, now) && now >= 0
  {
    var all := before + events;
    forall i, j | 0 <= i < j < |before| ensures before[i].t <= before[j].t {
      assert all[i] == before[i] && all[j] == before[j];
    }
    forall i, j | 0 <= i < j < |events| ensures events[i].t <= events[j].t {
      assert all[|before| + i] == events[i] && all[|before| + j] == events[j];
    }
    if before != [] {
      assert all[0] == before[0] && all[|before| - 1] == before[|before| - 1];
    }
    if events != [] {
      assert all[|before|] == events[0];
    }
  }

  // ─── how many get through ────────────────────────────────────────────────────

  function Zeros(waits: seq<int>): nat {
    if waits == [] then 0 else (if waits[0] == 0 then 1 else 0) + Zeros(waits[1..])
  }

  lemma {:induction false} GrantsAreZeros(bucket: Bucket, limit: Limit, times: seq<int>)
    requires limit.Valid()
    ensures Zeros(Waits(bucket, limit, times)) == Grants(bucket, limit, times)
    decreases |times|
  {
    hide Take;
    if times != [] {
      GrantsAreZeros(Take(bucket, limit, times[0]).0, limit, times[1..]);
      var rest := Waits(Take(bucket, limit, times[0]).0, limit, times[1..]);
      assert ([Take(bucket, limit, times[0]).1] + rest)[1..] == rest;
    }
  }

  lemma {:induction false} AttemptsAscend(events: seq<CodeEvent>, key: string, now: int)
    requires Ordered(events, now)
    ensures Ascending(AttemptsAt(events, key)) && forall t | t in AttemptsAt(events, key) :: now <= t
  {
    if events != [] {
      var rest := AttemptsAt(events[1..], key);
      AttemptsAscend(events[1..], key, events[0].t);
      var times := AttemptsAt(events, key);
      forall i, j | 0 <= i < j < |times| ensures times[i] <= times[j] {
        if |times| > |rest| {
          assert times[j] == rest[j - 1] && rest[j - 1] in rest;
          assert i > 0 ==> times[i] == rest[i - 1];
        }
      }
    }
  }

  lemma AttemptsFit(before: seq<CodeEvent>, idleEvictMs: int, limit: Limit, backoff: Backoff, events: seq<CodeEvent>, key: string, now: int)
    requires limit.Valid() && Ordered(before + events, 0)
    requires (before == [] ==> now == 0) && (before != [] ==> now == before[|before| - 1].t)
    requires AttemptsAt(events, key) != []
    ensures var bucket := BucketOf(AfterEvents(map[], idleEvictMs, limit, backoff, before), key, limit, now);
      var times := AttemptsAt(events, key);
      Ascending(times) && bucket.tokens >= 0.0 && bucket.updatedAt <= times[0]
  {
    hide AfterEvents, AttemptsAt;
    InTwoParts(before, events, now);
    EveryRunIsSane(map[], idleEvictMs, limit, backoff, before, 0);
    AttemptsAscend(events, key, now);
    assert AttemptsAt(events, key)[0] in AttemptsAt(events, key);
  }

  /** However the attempts at a code are spread and whatever else is tried, no more of them get
      through than its capacity and what drips in from the first of them to the last. */
  lemma CodeAttemptsAreBounded(before: seq<CodeEvent>, idleEvictMs: int, limit: Limit, backoff: Backoff, events: seq<CodeEvent>, key: string, now: int)
    requires limit.Valid() && Ordered(before + events, 0)
    requires (before == [] ==> now == 0) && (before != [] ==> now == before[|before| - 1].t)
    requires var codes := AfterEvents(map[], idleEvictMs, limit, backoff, before);
      key in codes ==> codes[key].blockedUntil <= now
    requires NoFailure(events, key) && AttemptsAt(events, key) != []
    ensures var codes := AfterEvents(map[], idleEvictMs, limit, backoff, before);
      var times := AttemptsAt(events, key);
      Zeros(Told(codes, idleEvictMs, limit, backoff, events, key)) as real
        <= limit.capacity + Refill(limit, times[|times| - 1] - times[0])
  {
    hide AfterEvents, Waits, Told, Grants, Zeros, Refill, AttemptsAt, BucketOf, Ordered, Ascending;
    var bucket := BucketOf(AfterEvents(map[], idleEvictMs, limit, backoff, before), key, limit, now);
    var times := AttemptsAt(events, key);
    AttemptsFit(before, idleEvictMs, limit, backoff, events, key, now);
    CodeAnswersAreItsBuckets(before, idleEvictMs, limit, backoff, events, key, now);
    GrantsAreZeros(bucket, limit, times);
    GrantsAreBounded(bucket, limit, times);
  }

  /** The first failure blocks a code for the base, and each one after it twice as long as the last,
      up to the ceiling. */
  lemma BlocksDouble(codes: Codes, backoff: Backoff, key: string, t: int, later: int)
    requires key in codes
    ensures var once := PenaliseCode(codes, backoff, key, t)[key];
      var twice := PenaliseCode(PenaliseCode(codes, backoff, key, t), backoff, key, later)[key];
      && (codes[key].failures == 0 ==> once.blockedUntil == t + Least(backoff.maxMs, backoff.baseMs))
      && twice.blockedUntil - later == Least(backoff.maxMs, 2 * (once.blockedUntil - t))
      && once.bucket == codes[key].bucket.(updatedAt := t)
  {
    PenaltyDoubles(backoff, codes[key].failures + 1);
    FirstPenalty(backoff);
    hide Penalty;
  }

  lemma FirstPenalty(backoff: Backoff)
    ensures Penalty(backoff, 1) == Least(backoff.maxMs, backoff.baseMs)
  {
    assert Pow2(0) == 1;
  }

  // ─── peers ───────────────────────────────────────────────────────────────────

  /** The answers among `answers` that went to `key`. */
  function AnswersTo(asks: seq<Ask>, answers: seq<int>, key: string): seq<int>
    requires |answers| == |asks|
  {
    if asks == [] then []
    else (if asks[0].key == key then [answers[0]] else []) + AnswersTo(asks[1..], answers[1..], key)
  }

  function AsksAt(asks: seq<Ask>, key: string): seq<int> {
    if asks == [] then []
    else (if asks[0].key == key then [asks[0].t] else []) + AsksAt(asks[1..], key)
  }

  lemma {:induction false} OneAnswerEach(buckets: Buckets, limit: Limit, asks: seq<Ask>)
    requires limit.Valid()
    ensures |AnswersKeeping(buckets, limit, asks)| == |asks|
    decreases |asks|
  {
    hide CheckKey;
    if asks != [] {
      OneAnswerEach(CheckKey(buckets, asks[0].key, limit, asks[0].t).0, limit, asks[1..]);
    }
  }

  /** A bucket in a map that keeps everything: its own, or none yet and a full one. */
  ghost predicate Holds(buckets: Buckets, key: string, limit: Limit, bucket: Bucket, t: int)
    requires limit.Valid()
  {
    && (key in buckets ==> buckets[key] == bucket)
    && (key !in buckets ==> Brim(bucket, limit, t))
  }

  lemma AskHolds(buckets: Buckets, key: string, limit: Limit, bucket: Bucket, now: int, ask: Ask)
    requires limit.Valid() && Holds(buckets, key, limit, bucket, now) && now <= ask.t
    ensures var (after, wait) := CheckKey(buckets, ask.key, limit, ask.t);
      if ask.key == key then wait == Take(bucket, limit, ask.t).1 && Holds(after, key, limit, Take(bucket, limit, ask.t).0, ask.t)
      else Holds(after, key, limit, bucket, ask.t)
  {
    if key !in buckets {
      BrimStays(bucket, limit, now, ask.t);
      BrimIsFull(bucket, limit, ask.t);
      FreshIsFull(limit, ask.t);
      BrimIsFull(Bucket(limit.capacity, ask.t), limit, ask.t);
      TakeSeesTheLevel(bucket, Bucket(limit.capacity, ask.t), limit, ask.t);
    }
    hide Take, Brim;
  }

  lemma {:induction false} KeptAnswers(buckets: Buckets, limit: Limit, asks: seq<Ask>, key: string, bucket: Bucket, now: int)
    requires limit.Valid() && Holds(buckets, key, limit, bucket, now) && InOrder(asks, now)
    ensures |AnswersKeeping(buckets, limit, asks)| == |asks|
    ensures AnswersTo(asks, AnswersKeeping(buckets, limit, asks), key) == Waits(bucket, limit, AsksAt(asks, key))
    decreases |asks|
  {
    OneAnswerEach(buckets, limit, asks);
    hide Holds, CheckKey, Take;
    if asks != [] {
      var ask, rest := asks[0], asks[1..];
      var (after, wait) := CheckKey(buckets, ask.key, limit, ask.t);
      AskHolds(buckets, key, limit, bucket, now, ask);
      var next := if ask.key == key then Take(bucket, limit, ask.t).0 else bucket;
      KeptAnswers(after, limit, rest, key, next, ask.t);
      assert AnswersKeeping(buckets, limit, asks)[1..] == AnswersKeeping(after, limit, rest);
      if ask.key == key {
        assert ([ask.t] + AsksAt(rest, key))[1..] == AsksAt(rest, key);
      } else {
        assert [] + AsksAt(rest, key) == AsksAt(rest, key);
        assert [] + Waits(next, limit, AsksAt(rest, key)) == Waits(next, limit, AsksAt(rest, key));
      }
    }
  }

  /** A peer with a name of its own is told what its own bucket tells it, full at its first call,
      whoever else calls and whatever is dropped to make room. */
  lemma PeerAnswersAreItsBuckets(idleEvictMs: int, limit: Limit, asks: seq<Ask>, key: string, now: int)
    requires limit.Valid() && InOrder(asks, now)
    ensures |AnswersEvicting(map[], idleEvictMs, limit, asks)| == |asks|
    ensures AnswersTo(asks, AnswersEvicting(map[], idleEvictMs, limit, asks), key)
         == Waits(Bucket(limit.capacity, now), limit, AsksAt(asks, key))
  {
    FreshIsFull(limit, now);
    hide AnswersEvicting, AnswersKeeping, Waits, Brim;
    MirroredAnswers(map[], map[], idleEvictMs, limit, asks, now);
    KeptAnswers(map[], limit, asks, key, Bucket(limit.capacity, now), now);
  }

  // ─── how much is remembered ──────────────────────────────────────────────────

  /** A failure is noted on a code that was tried and on no other. */
  lemma FailureIsNotedOnItsCode(codes: Codes, backoff: Backoff, key: string, t: int, other: string)
    ensures key !in codes ==> PenaliseCode(codes, backoff, key, t) == codes
    ensures var after := PenaliseCode(codes, backoff, key, t);
      && (other in after <==> other in codes)
      && (other in codes && other != key ==> after[other] == codes[other])
  {}

  /** However many names call, a map that has grown past its size holds only rows used within the time
      that matters. */
  lemma MemoryIsBounded(buckets: Buckets, key: string, idleEvictMs: int, limit: Limit, t: int)
    requires limit.Valid()
    ensures var after := CheckKey(EvictIdle(buckets, idleEvictMs, limit, t), key, limit, t).0;
      |after| <= 512 || forall other | other in after ::
        other == key || (after[other].updatedAt >= t - idleEvictMs || after[other].updatedAt >= t - limit.windowMs)
  {
    hide Take;
    OneMoreRow(buckets, key, Take(Lookup(buckets, key, limit, t), limit, t).0);
  }

  lemma CodeMemoryIsBounded(codes: Codes, key: string, idleEvictMs: int, limit: Limit, t: int)
    requires limit.Valid()
    ensures var after := CheckCode(codes, idleEvictMs, limit, key, t).0;
      |after| <= 512 || forall other | other in after ::
        other == key || (after[other].bucket.updatedAt >= t - idleEvictMs || after[other].bucket.updatedAt >= t - limit.windowMs)
  {
    hide Take;
    if |codes| < 512 {
      OneMoreRow(codes, key, CheckCode(codes, idleEvictMs, limit, key, t).0[key]);
    }
  }

  lemma OneMoreRow<T>(rows: map<string, T>, key: string, row: T)
    ensures |rows[key := row]| <= |rows| + 1
  {
    assert rows[key := row].Keys == rows.Keys + {key};
    assert |rows[key := row].Keys| <= |rows.Keys| + 1;
  }
}
