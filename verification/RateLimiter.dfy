/** `RateLimiter` as it is written: buckets and maps changed in place, the idle ones dropped in a
    loop over the map. Each method computes the corresponding function of `RateLimit`. */
module RateLimiter {
  import opened Text
  import opened RateLimit

  const FUNNEL_PEER: string := "funnel"

  class Limiter {
    const globalLimit: Limit
    const peerLimit: Limit
    const anonLimit: Limit
    const codeLimit: Limit
    const backoff: Backoff
    const idleEvictMs: int

    var global: Bucket
    var anon: Bucket
    var peers: Buckets
    var codes: Codes

    ghost predicate Valid() {
      globalLimit.Valid() && peerLimit.Valid() && anonLimit.Valid() && codeLimit.Valid()
    }

    constructor (globalLimit: Limit, peerLimit: Limit, anonLimit: Limit, codeLimit: Limit, backoff: Backoff, idleEvictMs: int, now: int)
      requires globalLimit.Valid() && peerLimit.Valid() && anonLimit.Valid() && codeLimit.Valid()
      ensures Valid()
      ensures global == Bucket(globalLimit.capacity, now) && anon == Bucket(anonLimit.capacity, now)
      ensures peers == map[] && codes == map[]
    {
      this.globalLimit, this.peerLimit, this.anonLimit, this.codeLimit := globalLimit, peerLimit, anonLimit, codeLimit;
      this.backoff, this.idleEvictMs := backoff, idleEvictMs;
      global := Bucket(globalLimit.capacity, now);
      anon := Bucket(anonLimit.capacity, now);
      peers, codes := map[], map[];
    }

    /** `take`, on a bucket that is put back where it came from. */
    method TakeOne(bucket: Bucket, limit: Limit, now: int) returns (after: Bucket, wait: int)
      requires limit.Valid()
      ensures (after, wait) == Take(bucket, limit, now)
    {
      var refill := (now - bucket.updatedAt) as real / limit.windowMs as real * limit.capacity;
      after := bucket.(tokens := Min(limit.capacity, bucket.tokens + refill));
      after := after.(updatedAt := now);
      assert refill == Refill(limit, now - bucket.updatedAt);
      ghost var level := Level(bucket, limit, now);
      assert after == Bucket(level, now);
      assert Take(bucket, limit, now) == if level < 1.0 then (Bucket(level, now), Wait(level, limit)) else (Bucket(level - 1.0, now), 0);
      if after.tokens < 1.0 {
        wait := Ceil((1.0 - after.tokens) / limit.capacity * limit.windowMs as real);
        assert wait == Wait(after.tokens, limit);
        return;
      }
      after := after.(tokens := after.tokens - 1.0);
      wait := 0;
    }

    /** `checkGlobal`: a wait of zero is a grant and costs one token; a refusal costs nothing and
        names the first millisecond at which asking again succeeds. */
    method CheckGlobal(now: int) returns (wait: int)
      requires Valid()
      modifies this`global
      ensures global.updatedAt == now
      ensures wait == 0 <==> Level(old(global), globalLimit, now) >= 1.0
      ensures global.tokens == Level(old(global), globalLimit, now) - (if wait == 0 then 1.0 else 0.0)
      ensures wait != 0 ==> wait > 0 && forall later | later >= now :: Granted(global, globalLimit, later) <==> now + wait <= later
    {
      ghost var before := global;
      global, wait := TakeOne(global, globalLimit, now);
      GrantedFromOne(before, globalLimit, now);
      if wait != 0 {
        DenialWaits(before, globalLimit, now);
        forall later | later >= now ensures Granted(global, globalLimit, later) <==> now + wait <= later {
          WaitIsLeast(before, globalLimit, now, later - now);
        }
      }
    }

    /** Everyone without an identity of their own shares one bucket. */
    method CheckPeer(peer: Option<string>, now: int) returns (wait: int)
      requires Valid()
      modifies this`anon, this`peers
      ensures var identified := peer.GetOr("") != "" && peer != Some(FUNNEL_PEER);
              if identified then
                anon == old(anon)
                && (peers, wait) == CheckKey(EvictIdle(old(peers), idleEvictMs, peerLimit, now), peer.value, peerLimit, now)
              else peers == old(peers) && (anon, wait) == Take(old(anon), anonLimit, now)
    {
      if peer.None? || |peer.value| == 0 || peer.value == FUNNEL_PEER {
        anon, wait := TakeOne(anon, anonLimit, now);
        return;
      }
      EvictIdlePeers(now);
      var bucket := if peer.value in peers then peers[peer.value] else Bucket(peerLimit.capacity, now);
      bucket, wait := TakeOne(bucket, peerLimit, now);
      peers := peers[peer.value := bucket];
    }

    /** `evictIdle` over the peers. */
    method EvictIdlePeers(now: int)
      modifies this`peers
      ensures peers == EvictIdle(old(peers), idleEvictMs, peerLimit, now)
    {
      if |peers| < EVICT_FROM {
        return;
      }
      var cutoff := now - Longer(idleEvictMs, peerLimit.windowMs);
      var left := peers.Keys;
      while left != {}
        invariant left <= peers.Keys <= old(peers).Keys
        invariant forall key | key in peers :: peers[key] == old(peers)[key]
        invariant forall key | key in old(peers) && key !in left ::
                    key in peers <==> old(peers)[key].updatedAt >= cutoff
        decreases |left|
      {
        var key :| key in left;
        left := left - {key};
        if peers[key].updatedAt < cutoff {
          peers := peers - {key};
        }
      }
    }

    /** `evictIdle` over the codes. */
    method EvictIdleCodeRows(now: int)
      modifies this`codes
      ensures codes == EvictIdleCodes(old(codes), idleEvictMs, codeLimit, now)
    {
      if |codes| < EVICT_FROM {
        return;
      }
      var cutoff := now - Longer(idleEvictMs, codeLimit.windowMs);
      var left := codes.Keys;
      while left != {}
        invariant left <= codes.Keys <= old(codes).Keys
        invariant forall key | key in codes :: codes[key] == old(codes)[key]
        invariant forall key | key in old(codes) && key !in left ::
                    key in codes <==> old(codes)[key].bucket.updatedAt >= cutoff
        decreases |left|
      {
        var key :| key in left;
        left := left - {key};
        if codes[key].bucket.updatedAt < cutoff {
          codes := codes - {key};
        }
      }
    }

    /** `checkCode`; `key` is the code in upper case. */
    method CheckCode(key: string, now: int) returns (wait: int)
      requires Valid()
      modifies this`codes
      ensures (codes, wait) == RateLimit.CheckCode(old(codes), idleEvictMs, codeLimit, key, now)
    {
      EvictIdleCodeRows(now);
      ghost var kept := codes;
      if key !in codes {
        codes := codes[key := CodeState(Bucket(codeLimit.capacity, now), 0, 0)];
      }
      var state := codes[key];
      if state.blockedUntil > now {
        assert codes == kept[key := state];
        return state.blockedUntil - now;
      }
      var bucket;
      bucket, wait := TakeOne(state.bucket, codeLimit, now);
      codes := codes[key := state.(bucket := bucket)];
      assert codes == kept[key := state.(bucket := bucket)];
    }

    method PenaliseCode(key: string, now: int)
      modifies this`codes
      ensures codes == RateLimit.PenaliseCode(old(codes), backoff, key, now)
    {
      if key !in codes {
        return;
      }
      var state := codes[key];
      var failures := state.failures + 1;
      codes := codes[key := CodeState(state.bucket.(updatedAt := now), failures, now + Penalty(backoff, failures))];
    }
  }
}
