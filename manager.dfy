/**
 * CacheManager: the read-through tiers. TryCache answers from a client when it
 * can and otherwise runs the producer and stores its result; a hit that is
 * about to expire refreshes the entry through ExtendCache, which a marker key
 * makes single-flight. The second tier falls back to the first when it is the
 * NoneCacheClient placeholder. The producer is pure here: `produced` is what
 * it returns and `calls` counts how often it ran.
 */
module Manager {
  import opened Values
  import opened BaseClient
  import opened Clients
  import Memory
  import RedisNative
  import RedisCache

  datatype CacheClientConfig = CacheClientConfig(slidingTimeToLive: int, expiresInMinutes: int)

  datatype ManagerConfig = ManagerConfig(first: CacheClientConfig, second: CacheClientConfig, enabled: bool)

  /** ExtendCache on a snapshot: the new snapshot and how many times the producer ran. */
  function Extend(s: Snap, produced: Value, key: string, minutes: int, now: int, io: RedisCache.RedisIo): (r: (Snap, nat))
    requires SnapValid(s) && key != "" && minutes > 0 && s.slidingTimeToLive > 0
    ensures SnapValid(r.0) && r.0.slidingTimeToLive == s.slidingTimeToLive
    ensures r.1 <= 1
    ensures SnapIsExtending(s, key, now, io.readerFails) ==> r == (s, 0)
  {
    if SnapIsExtending(s, key, now, io.readerFails) then (s, 0)
    else
      var marked := SnapSet(s, key + CacheKeyIsExtendingSuffix, One, s.slidingTimeToLive, now, io).0;
      (SnapSet(marked, key, produced, minutes, now, io).0, 1)
  }

  /** The result of TryCache: the value returned, the producer runs, and the tier afterwards. */
  datatype TryResult = TryResult(value: Value, calls: nat, after: Snap)

  /** TryCacheInternal on a snapshot. */
  function TryCacheSpec(s: Snap, produced: Value, key: string, t: Ty, minutes: int, cacheNull: bool, now: int, io: RedisCache.RedisIo)
    : (r: TryResult)
    requires SnapValid(s) && key != "" && minutes > 0
    ensures SnapValid(r.after) && r.calls <= 1
  {
    var (found, cached) := SnapGet(s, key, t, now, io.readerFails);
    if found then
      if SnapAboutToExpire(s, key, now) then
        var (extended, calls) := Extend(s, produced, key, minutes, now, io);
        TryResult(cached, calls, extended)
      else TryResult(cached, 0, s)
    else if produced != Null || cacheNull then
      TryResult(produced, 1, SnapSet(s, key, produced, minutes, now, io).0)
    else TryResult(produced, 1, s)
  }

  // ---------------------------------------------------------------------------
  // Properties of the read-through protocol

  /** On a hit the cached value is returned, and the producer runs only to refresh an entry about to expire that nobody is extending. */
  lemma HitReturnsCachedValue(s: Snap, produced: Value, key: string, t: Ty, minutes: int, cacheNull: bool, now: int, io: RedisCache.RedisIo)
    requires SnapValid(s) && key != "" && minutes > 0
    requires SnapGet(s, key, t, now, io.readerFails).0
    ensures var r := TryCacheSpec(s, produced, key, t, minutes, cacheNull, now, io);
            r.value == SnapGet(s, key, t, now, io.readerFails).1
            && (r.calls == 1 <==> SnapAboutToExpire(s, key, now) && !SnapIsExtending(s, key, now, io.readerFails))
            && (r.calls == 0 ==> r.after == s)
  {
  }

  /** On a miss the producer runs once, its result is returned, and it is stored unless it is null and nulls are not cached. */
  lemma MissRunsProducerOnce(s: Snap, produced: Value, key: string, t: Ty, minutes: int, cacheNull: bool, now: int, io: RedisCache.RedisIo)
    requires SnapValid(s) && key != "" && minutes > 0
    requires !SnapGet(s, key, t, now, io.readerFails).0
    ensures var r := TryCacheSpec(s, produced, key, t, minutes, cacheNull, now, io);
            r.value == produced && r.calls == 1
            && r.after == if produced != Null || cacheNull then SnapSet(s, key, produced, minutes, now, io).0 else s
  {
  }

  /** ExtendCache is single-flight: right after one extension, a second one finds the marker and does nothing. */
  lemma ExtendIsSingleFlight(s: Snap, p1: Value, p2: Value, key: string, minutes: int, now: int, io: RedisCache.RedisIo)
    requires SnapValid(s) && key != "" && minutes > 0 && s.slidingTimeToLive > 0
    requires !s.contents.NoContents? && !io.readerFails
    ensures var r1 := Extend(s, p1, key, minutes, now, io);
            Extend(r1.0, p2, key, minutes, now, io) == (r1.0, 0)
  {
    if !SnapIsExtending(s, key, now, false) {
      var marked := SnapSet(s, key + CacheKeyIsExtendingSuffix, One, s.slidingTimeToLive, now, io).0;
      MarkerBlocksExtension(s, key, now, now, io);
      MarkerKeyDiffers(key);
      SetKeepsMarker(marked, key, key, p1, minutes, now, io);
    }
  }

  /** What a read of a value that Set stored yields: null comes back as the default. */
  function Cached(v: Value, t: Ty): Value
  {
    if v == Null then Default(t) else v
  }

  /**
   * Read-through on the in-memory tier: a miss stores the produced value (null
   * through the sentinel), and a later TryCache before it expires is a hit
   * that returns it; outside the sliding window it does not run the producer.
   */
  lemma MissThenHitInMemory(s: Snap, p1: Value, p2: Value, key: string, t: Ty, minutes: int, now: int, later: int, io: RedisCache.RedisIo)
    requires SnapValid(s) && s.contents.MemoryContents? && key != "" && minutes > 0
    requires p1 == Null || (CastSucceeds(p1, t) && p1.text != Memory.NullValueIndicator)
    requires !SnapGet(s, key, t, now, io.readerFails).0
    requires now <= later < now + 60 * minutes
    ensures var r1 := TryCacheSpec(s, p1, key, t, minutes, true, now, io);
            var r2 := TryCacheSpec(r1.after, p2, key, t, minutes, true, later, io);
            r1.value == p1 && r1.calls == 1 && r2.value == Cached(p1, t)
            && (later < now + 60 * (minutes - s.slidingTimeToLive) ==> r2.calls == 0 && r2.after == r1.after)
  {
    var store := s.contents.store;
    var stt := s.slidingTimeToLive;
    Memory.ReadAfterWrite(store, stt, key, p1, minutes, now, later, t);
    if stt > 0 {
      Memory.AboutToExpireAfterWrite(store, stt, key, p1, minutes, now, later);
    } else {
      Memory.NeverAboutToExpireWithoutSliding(Memory.Write(store, stt, key, p1, minutes, now), stt, key, later);
    }
  }

  /** The same read-through on the Redis tier, while the reader answers. */
  lemma MissThenHitOnRedis(s: Snap, p1: Value, p2: Value, key: string, t: Ty, minutes: int, now: int, later: int, io: RedisCache.RedisIo)
    requires SnapValid(s) && s.contents.RedisContents? && key != "" && minutes > 0 && !io.readerFails
    requires RedisNative.WellFormed(p1) && p1 != DbNull
    requires p1.Obj? ==> ReadableAs(p1, t) && RedisNative.WireValue(p1) != RedisNative.NullValueIndicatorWithQuotes
    requires p1 == Null ==> t != BytesTy
    requires !SnapGet(s, key, t, now, false).0
    requires now <= later < now + 60 * minutes
    ensures var r1 := TryCacheSpec(s, p1, key, t, minutes, true, now, io);
            var r2 := TryCacheSpec(r1.after, p2, key, t, minutes, true, later, io);
            r1.value == p1 && r1.calls == 1 && r2.value == Cached(p1, t)
            && (later < now + 60 * (minutes - s.slidingTimeToLive) ==> r2.calls == 0 && r2.after == r1.after)
  {
    var data := s.contents.data;
    var stt := s.slidingTimeToLive;
    RedisNative.ReadAfterStore(data, key, p1, t, 60 * minutes, now, later);
    if stt > 0 {
      RedisCache.AboutToExpireAfterStore(data, stt, key, RedisNative.WireValue(p1), minutes, now, later);
    }
  }

  /** A null result with cacheNull false is not stored, so the next TryCache runs the producer again. */
  lemma UncachedNullRunsAgain(s: Snap, p2: Value, key: string, t: Ty, minutes: int, now: int, io: RedisCache.RedisIo)
    requires SnapValid(s) && key != "" && minutes > 0
    requires !SnapGet(s, key, t, now, io.readerFails).0
    ensures var r1 := TryCacheSpec(s, Null, key, t, minutes, false, now, io);
            r1.after == s && TryCacheSpec(r1.after, p2, key, t, minutes, false, now, io).calls == 1
  {
  }

  class CacheManager {
    const first: Client
    const second: Client
    const expireInMinutesFirst: int
    const expireInMinutesSecond: int
    const isEnabled: bool

    /** Copies each tier's SlidingTimeToLive into its client and keeps the expiries; a client used as both tiers keeps the second setting. */
    constructor(first: Client, second: Client, config: ManagerConfig)
      requires Clients.Valid(first) && Clients.Valid(second)
      modifies Owner(first), Owner(second)
      ensures this.first == first && this.second == second
      ensures expireInMinutesFirst == config.first.expiresInMinutes
      ensures expireInMinutesSecond == config.second.expiresInMinutes
      ensures isEnabled == config.enabled
      ensures Clients.Valid(first) && Clients.Valid(second)
      ensures Snapshot(second) == old(Snapshot(second)).(slidingTimeToLive := config.second.slidingTimeToLive)
      ensures Owner(first) != Owner(second) ==>
                Snapshot(first) == old(Snapshot(first)).(slidingTimeToLive := config.first.slidingTimeToLive)
    {
      this.first := first;
      this.second := second;
      expireInMinutesFirst := config.first.expiresInMinutes;
      expireInMinutesSecond := config.second.expiresInMinutes;
      isEnabled := config.enabled;
      new;
      SetSlidingTimeToLive(first, config.first.slidingTimeToLive);
      SetSlidingTimeToLive(second, config.second.slidingTimeToLive);
    }

    static method ExtendCache(c: Client, produced: Value, key: string, minutes: int, now: int, io: RedisCache.RedisIo)
      returns (calls: nat)
      requires Clients.Valid(c) && key != "" && minutes > 0 && Snapshot(c).slidingTimeToLive > 0
      modifies Repr(c)
      ensures Clients.Valid(c)
      ensures (Snapshot(c), calls) == Extend(old(Snapshot(c)), produced, key, minutes, now, io)
    {
      if IsExtending(c, key, now, io.readerFails) {
        return 0;
      }
      var marked := SetKeyAsExtending(c, key, now, io);
      var value := produced;
      calls := 1;
      var ok := Clients.Set(c, key, value, minutes, now, io);
    }

    static method TryCacheInternal(c: Client, produced: Value, key: string, t: Ty, minutes: int, cacheNull: bool,
                                   now: int, io: RedisCache.RedisIo)
      returns (value: Value, calls: nat)
      requires Clients.Valid(c) && key != "" && minutes > 0
      modifies Repr(c)
      ensures Clients.Valid(c)
      ensures TryResult(value, calls, Snapshot(c)) == TryCacheSpec(old(Snapshot(c)), produced, key, t, minutes, cacheNull, now, io)
    {
      var retrieved := Get(c, key, t, now, io.readerFails);
      var found := retrieved.0;
      value := retrieved.1;
      if found {
        calls := 0;
        if IsAboutToExpire(c, key, now) {
          AboutToExpireNeedsSliding(Snapshot(c), key, now);
          calls := ExtendCache(c, produced, key, minutes, now, io);
        }
        return;
      }
      value := produced;
      calls := 1;
      if value != Null || cacheNull {
        var ok := Clients.Set(c, key, value, minutes, now, io);
      }
    }

    /** TryCache with the first tier's configured expiry. */
    method TryCache(produced: Value, key: string, t: Ty, cacheNull: bool, now: int, io: RedisCache.RedisIo)
      returns (value: Value, calls: nat)
      requires Clients.Valid(first) && key != "" && expireInMinutesFirst > 0
      modifies Repr(first)
      ensures Clients.Valid(first)
      ensures TryResult(value, calls, Snapshot(first))
              == TryCacheSpec(old(Snapshot(first)), produced, key, t, expireInMinutesFirst, cacheNull, now, io)
    {
      value, calls := TryCacheInternal(first, produced, key, t, expireInMinutesFirst, cacheNull, now, io);
    }

    method TryCacheFor(produced: Value, key: string, t: Ty, minutes: int, cacheNull: bool, now: int, io: RedisCache.RedisIo)
      returns (value: Value, calls: nat)
      requires Clients.Valid(first) && key != "" && minutes > 0
      modifies Repr(first)
      ensures Clients.Valid(first)
      ensures TryResult(value, calls, Snapshot(first))
              == TryCacheSpec(old(Snapshot(first)), produced, key, t, minutes, cacheNull, now, io)
    {
      value, calls := TryCacheInternal(first, produced, key, t, minutes, cacheNull, now, io);
    }

    /** TryCacheToSecondClient: the second tier with its expiry, or the first tier (caching nulls) when the second is the placeholder. */
    method TryCacheToSecondClient(produced: Value, key: string, t: Ty, cacheNull: bool, now: int, io: RedisCache.RedisIo)
      returns (value: Value, calls: nat)
      requires key != ""
      requires second.NoneClient? ==> Clients.Valid(first) && expireInMinutesFirst > 0
      requires !second.NoneClient? ==> Clients.Valid(second) && expireInMinutesSecond > 0
      modifies if second.NoneClient? then Repr(first) else Repr(second)
      ensures Clients.Valid(if second.NoneClient? then first else second)
      ensures second.NoneClient? ==>
                TryResult(value, calls, Snapshot(first))
                == TryCacheSpec(old(Snapshot(first)), produced, key, t, expireInMinutesFirst, true, now, io)
      ensures !second.NoneClient? ==>
                TryResult(value, calls, Snapshot(second))
                == TryCacheSpec(old(Snapshot(second)), produced, key, t, expireInMinutesSecond, cacheNull, now, io)
    {
      if second.NoneClient? {
        value, calls := TryCache(produced, key, t, true, now, io);
        return;
      }
      value, calls := TryCacheInternal(second, produced, key, t, expireInMinutesSecond, cacheNull, now, io);
    }

    method TryCacheToSecondClientFor(produced: Value, key: string, t: Ty, minutes: int, cacheNull: bool,
                                     now: int, io: RedisCache.RedisIo)
      returns (value: Value, calls: nat)
      requires key != "" && minutes > 0
      requires second.NoneClient? ==> Clients.Valid(first)
      requires !second.NoneClient? ==> Clients.Valid(second)
      modifies if second.NoneClient? then Repr(first) else Repr(second)
      ensures Clients.Valid(if second.NoneClient? then first else second)
      ensures second.NoneClient? ==>
                TryResult(value, calls, Snapshot(first))
                == TryCacheSpec(old(Snapshot(first)), produced, key, t, minutes, true, now, io)
      ensures !second.NoneClient? ==>
                TryResult(value, calls, Snapshot(second))
                == TryCacheSpec(old(Snapshot(second)), produced, key, t, minutes, cacheNull, now, io)
    {
      if second.NoneClient? {
        value, calls := TryCacheFor(produced, key, t, minutes, true, now, io);
        return;
      }
      value, calls := TryCacheInternal(second, produced, key, t, minutes, cacheNull, now, io);
    }

    function FromCache(key: string, t: Ty, now: int, readerFails: bool): (r: (bool, Value))
      reads Repr(first)
      requires key != ""
      ensures r == SnapGet(Snapshot(first), key, t, now, readerFails)
    {
      Get(first, key, t, now, readerFails)
    }

    function FromSecondCache(key: string, t: Ty, now: int, readerFails: bool): (r: (bool, Value))
      reads Repr(first), Repr(second)
      requires key != ""
      ensures r == SnapGet(Snapshot(if second.NoneClient? then first else second), key, t, now, readerFails)
    {
      if second.NoneClient? then FromCache(key, t, now, readerFails) else Get(second, key, t, now, readerFails)
    }

    method ToCache(key: string, v: Value, minutes: int, now: int, io: RedisCache.RedisIo) returns (ok: bool)
      requires Clients.Valid(first) && key != "" && minutes > 0
      modifies Repr(first)
      ensures Clients.Valid(first)
      ensures (Snapshot(first), ok) == SnapSet(old(Snapshot(first)), key, v, minutes, now, io)
    {
      ok := Clients.Set(first, key, v, minutes, now, io);
    }

    method ToCacheForDefaultMinutes(key: string, v: Value, now: int, io: RedisCache.RedisIo) returns (ok: bool)
      requires Clients.Valid(first) && key != ""
      modifies Repr(first)
      ensures Clients.Valid(first)
      ensures (Snapshot(first), ok) == SnapSet(old(Snapshot(first)), key, v, DefaultCacheMinutes, now, io)
    {
      ok := SetForDefaultMinutes(first, key, v, now, io);
    }

    method ToSecondCache(key: string, v: Value, minutes: int, now: int, io: RedisCache.RedisIo) returns (ok: bool)
      requires key != "" && minutes > 0
      requires Clients.Valid(if second.NoneClient? then first else second)
      modifies if second.NoneClient? then Repr(first) else Repr(second)
      ensures Clients.Valid(if second.NoneClient? then first else second)
      ensures var c := if second.NoneClient? then first else second;
              (Snapshot(c), ok) == SnapSet(old(Snapshot(c)), key, v, minutes, now, io)
    {
      if second.NoneClient? {
        ok := ToCache(key, v, minutes, now, io);
        return;
      }
      ok := Clients.Set(second, key, v, minutes, now, io);
    }

    method ToSecondCacheForDefaultMinutes(key: string, v: Value, now: int, io: RedisCache.RedisIo) returns (ok: bool)
      requires key != ""
      requires Clients.Valid(if second.NoneClient? then first else second)
      modifies if second.NoneClient? then Repr(first) else Repr(second)
      ensures Clients.Valid(if second.NoneClient? then first else second)
      ensures var c := if second.NoneClient? then first else second;
              (Snapshot(c), ok) == SnapSet(old(Snapshot(c)), key, v, DefaultCacheMinutes, now, io)
    {
      if second.NoneClient? {
        ok := ToCacheForDefaultMinutes(key, v, now, io);
        return;
      }
      ok := SetForDefaultMinutes(second, key, v, now, io);
    }
  }
}
