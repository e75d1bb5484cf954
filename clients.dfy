/**
 * ICacheClient and the shared behaviour of BaseCacheClient over the three
 * clients. A client is one of the three classes; `Snap` is what a client's
 * answers depend on (its entries, or for Redis the reader's data, the commands
 * that reached the writer and the failover state, plus the sliding time to
 * live), and the dispatch members are proved against functions on it.
 */
module Clients {
  import opened Wrappers
  import opened Values
  import opened BaseClient
  import Memory
  import NoneCache
  import RedisNative
  import Failover
  import RedisCache

  datatype Client =
    | MemoryClient(m: Memory.MemoryCacheClient)
    | NoneClient(n: NoneCache.NoneCacheClient)
    | RedisClient(r: RedisCache.RedisCacheClient)

  /** The objects a client's operations may change. */
  ghost function Repr(c: Client): set<object>
  {
    match c
    case MemoryClient(m) => {m}
    case NoneClient(n) => {n}
    case RedisClient(r) => {r, r.reader, r.server}
  }

  /** The object that carries the client's SlidingTimeToLive. */
  function Owner(c: Client): object
  {
    match c
    case MemoryClient(m) => m
    case NoneClient(n) => n
    case RedisClient(r) => r
  }

  ghost predicate Valid(c: Client)
    reads Repr(c)
  {
    c.RedisClient? ==> c.r.Valid()
  }

  datatype Contents =
    | MemoryContents(store: Memory.Store)
    | NoContents
    | RedisContents(data: RedisNative.Data, log: seq<RedisCache.RemoteCommand>, view: Failover.View,
                    slaveHost: string, slavePort: int)

  datatype Snap = Snap(contents: Contents, slidingTimeToLive: int)

  ghost predicate SnapValid(s: Snap)
  {
    s.contents.RedisContents? ==>
      s.contents.slaveHost != "" && s.contents.slavePort > 0 && Failover.WriterValid(s.contents.view)
  }

  function Snapshot(c: Client): (s: Snap)
    reads Repr(c)
  {
    match c
    case MemoryClient(m) => Snap(MemoryContents(m.store), m.slidingTimeToLive)
    case NoneClient(n) => Snap(NoContents, n.slidingTimeToLive)
    case RedisClient(r) =>
      Snap(RedisContents(r.reader.data, r.remoteLog, r.server.ViewOf(r), r.server.slaveHost, r.server.slavePort),
           r.slidingTimeToLive)
  }

  lemma ValidSnapshot(c: Client)
    requires Valid(c)
    ensures SnapValid(Snapshot(c))
  {
  }

  // ---------------------------------------------------------------------------
  // The capability on snapshots

  /** Exists(key); the Redis reader's failure reads as false. */
  predicate SnapExists(s: Snap, key: string, now: int, readerFails: bool)
  {
    match s.contents
    case MemoryContents(store) => Memory.Live(store, key, now)
    case NoContents => false
    case RedisContents(data, _, _, _, _) => !readerFails && RedisNative.Live(data, key, now)
  }

  /** Get(key, out value): whether the value is found, and the value or the default. */
  function SnapGet(s: Snap, key: string, t: Ty, now: int, readerFails: bool): (bool, Value)
  {
    match s.contents
    case MemoryContents(store) => Memory.Read(store, key, t, now)
    case NoContents => (false, Default(t))
    case RedisContents(data, _, _, _, _) =>
      if readerFails then (false, Default(t)) else RedisNative.Decode(RedisNative.RawValue(data, key, now), t)
  }

  predicate SnapAboutToExpire(s: Snap, key: string, now: int)
  {
    match s.contents
    case MemoryContents(store) => Memory.AboutToExpire(store, s.slidingTimeToLive, key, now)
    case NoContents => false
    case RedisContents(data, _, _, _, _) => RedisCache.AboutToExpire(data, s.slidingTimeToLive, key, now)
  }

  /** The Redis write path: the reader best-effort, the writer through the retry and the failover. */
  function RedisWrite(c: Contents, key: string, localData: RedisNative.Data, op: RedisCache.RemoteOp, now: int, io: RedisCache.RedisIo): Contents
    requires c.RedisContents? && c.slaveHost != "" && c.slavePort > 0
  {
    var data := if io.readerFails then c.data else localData;
    var log := c.log + (if RedisCache.Delivered(io).Some? then [RedisCache.RemoteCommand(c.view.writerHost, c.view.writerPort, op)] else []);
    RedisContents(data, log, RedisCache.AfterRemote(c.view, c.slaveHost, c.slavePort, now, io), c.slaveHost, c.slavePort)
  }

  /** Set(key, value, minutes): the new snapshot and the result. */
  function SnapSet(s: Snap, key: string, v: Value, minutes: int, now: int, io: RedisCache.RedisIo): (r: (Snap, bool))
    requires SnapValid(s)
    ensures SnapValid(r.0) && r.0.slidingTimeToLive == s.slidingTimeToLive
    ensures r.0.contents.MemoryContents? == s.contents.MemoryContents?
    ensures r.0.contents.RedisContents? == s.contents.RedisContents?
    ensures r.1 <==> !s.contents.NoContents?
  {
    match s.contents
    case MemoryContents(store) =>
      (s.(contents := MemoryContents(Memory.Write(store, s.slidingTimeToLive, key, v, minutes, now))), true)
    case NoContents => (s, false)
    case RedisContents(data, _, _, _, _) =>
      var raw := RedisNative.WireValue(v);
      (s.(contents := RedisWrite(s.contents, key, RedisNative.Stored(data, key, raw, 60 * minutes, now),
                                 RedisCache.SetOp(key, raw, 60 * minutes), now, io)), true)
  }

  /** Add(key, value, minutes): the new snapshot and the result. */
  function SnapAdd(s: Snap, key: string, v: Value, minutes: int, now: int, io: RedisCache.RedisIo): (r: (Snap, bool))
    requires SnapValid(s) && (s.contents.MemoryContents? ==> v != Null)
    ensures SnapValid(r.0) && r.0.slidingTimeToLive == s.slidingTimeToLive
    ensures s.contents.NoContents? ==> r == (s, false)
    ensures s.contents.RedisContents? ==> r.1
    ensures s.contents.MemoryContents? ==> (r.1 <==> !Memory.Live(s.contents.store, key, now))
  {
    match s.contents
    case MemoryContents(store) =>
      var (stored, added) := Memory.Insert(store, s.slidingTimeToLive, key, v, minutes, now);
      (s.(contents := MemoryContents(stored)), added)
    case NoContents => (s, false)
    case RedisContents(data, _, _, _, _) =>
      var raw := RedisNative.WireValue(v);
      (s.(contents := RedisWrite(s.contents, key, RedisNative.StoredIfAbsent(data, key, raw, 60 * minutes, now).0,
                                 RedisCache.AddOp(key, raw, 60 * minutes), now, io)), true)
  }

  function SnapFlushAll(s: Snap, now: int, io: RedisCache.RedisIo): (r: Snap)
    requires SnapValid(s)
    ensures SnapValid(r)
  {
    match s.contents
    case MemoryContents(_) => s.(contents := MemoryContents(map[]))
    case NoContents => s
    case RedisContents(data, _, _, _, _) =>
      s.(contents := RedisWrite(s.contents, "", data, RedisCache.FlushAllOp, now, io))
  }

  /** IsExtending(key): the extension marker of the key exists. */
  predicate SnapIsExtending(s: Snap, key: string, now: int, readerFails: bool)
  {
    SnapExists(s, key + CacheKeyIsExtendingSuffix, now, readerFails)
  }

  // ---------------------------------------------------------------------------
  // Properties of the capability

  /** Get reports found exactly when something live is stored, and absent keys read as the default. */
  lemma MissingKeyReadsAsDefault(s: Snap, key: string, t: Ty, now: int, readerFails: bool)
    requires !SnapExists(s, key, now, readerFails)
    ensures SnapGet(s, key, t, now, readerFails) == (false, Default(t))
  {
  }

  /** Only a client with a sliding time to live ever reports a key as about to expire. */
  lemma AboutToExpireNeedsSliding(s: Snap, key: string, now: int)
    requires SnapAboutToExpire(s, key, now)
    ensures s.slidingTimeToLive > 0
  {
  }

  /** The extension marker never collides with the key itself or with its tracker. */
  lemma MarkerKeyDiffers(key: string)
    ensures key + CacheKeyIsExtendingSuffix != key
    ensures key + CacheKeyIsExtendingSuffix != Memory.TrackerKey(key)
    ensures Memory.TrackerKey(key + CacheKeyIsExtendingSuffix) != key
  {
    assert |key + CacheKeyIsExtendingSuffix| == |key| + 10;
    assert (key + CacheKeyIsExtendingSuffix)[|key| + 4] == 'E';
    assert Memory.TrackerKey(key)[|key| + 4] == 'T';
  }

  /**
   * SetKeyAsExtending blocks other clients: on a client that stores anything
   * (and whose reader answers), the key is extending for the next
   * SlidingTimeToLive minutes.
   */
  lemma MarkerBlocksExtension(s: Snap, key: string, now: int, later: int, io: RedisCache.RedisIo)
    requires SnapValid(s) && s.slidingTimeToLive > 0 && !s.contents.NoContents? && !io.readerFails
    requires now <= later < now + 60 * s.slidingTimeToLive
    ensures SnapIsExtending(SnapSet(s, key + CacheKeyIsExtendingSuffix, One, s.slidingTimeToLive, now, io).0, key, later, false)
  {
    MarkerKeyDiffers(key);
  }

  /** Set on a key other than the marker (and its tracker) keeps the marker as it was. */
  lemma SetKeepsMarker(s: Snap, key: string, other: string, v: Value, minutes: int, now: int, io: RedisCache.RedisIo)
    requires SnapValid(s) && !io.readerFails
    requires other != key + CacheKeyIsExtendingSuffix && Memory.TrackerKey(other) != key + CacheKeyIsExtendingSuffix
    ensures SnapIsExtending(SnapSet(s, other, v, minutes, now, io).0, key, now, false) == SnapIsExtending(s, key, now, false)
  {
  }

  // ---------------------------------------------------------------------------
  // Dispatch

  predicate Exists(c: Client, key: string, now: int, readerFails: bool)
    reads Repr(c)
    requires key != ""
    ensures Exists(c, key, now, readerFails) == SnapExists(Snapshot(c), key, now, readerFails)
  {
    match c
    case MemoryClient(m) => m.Exists(key, now)
    case NoneClient(n) => n.Exists(key)
    case RedisClient(r) => r.Exists(key, now, readerFails)
  }

  function Get(c: Client, key: string, t: Ty, now: int, readerFails: bool): (r: (bool, Value))
    reads Repr(c)
    requires key != ""
    ensures r == SnapGet(Snapshot(c), key, t, now, readerFails)
  {
    match c
    case MemoryClient(m) => m.Get(key, t, now)
    case NoneClient(n) => n.Get(key, t)
    case RedisClient(r) => r.Get(key, t, now, readerFails)
  }

  /** Get<T>(key): the value when it is found, the default otherwise. */
  function GetValue(c: Client, key: string, t: Ty, now: int, readerFails: bool): (v: Value)
    reads Repr(c)
    requires key != ""
    ensures !SnapGet(Snapshot(c), key, t, now, readerFails).0 ==> v == Default(t)
    ensures SnapGet(Snapshot(c), key, t, now, readerFails).0 ==> v == SnapGet(Snapshot(c), key, t, now, readerFails).1
  {
    var (retrieved, value) := Get(c, key, t, now, readerFails);
    if retrieved then value else Default(t)
  }

  predicate IsAboutToExpire(c: Client, key: string, now: int)
    reads Repr(c)
    requires key != ""
    ensures IsAboutToExpire(c, key, now) == SnapAboutToExpire(Snapshot(c), key, now)
  {
    match c
    case MemoryClient(m) => m.IsAboutToExpire(key, now)
    case NoneClient(n) => n.IsAboutToExpire(key)
    case RedisClient(r) => r.IsAboutToExpire(key, now)
  }

  predicate IsExtending(c: Client, key: string, now: int, readerFails: bool)
    reads Repr(c)
    requires key != ""
    ensures IsExtending(c, key, now, readerFails) == SnapIsExtending(Snapshot(c), key, now, readerFails)
  {
    Exists(c, key + CacheKeyIsExtendingSuffix, now, readerFails)
  }

  /** Set<T>(key, value, minutes, out task): the Redis client exposes its remote write, the others no task. */
  method SetWithTask(c: Client, key: string, v: Value, minutes: int, now: int, io: RedisCache.RedisIo)
    returns (ok: bool, task: Option<bool>)
    requires Valid(c) && key != "" && minutes > 0
    modifies Repr(c)
    ensures Valid(c)
    ensures (Snapshot(c), ok) == SnapSet(old(Snapshot(c)), key, v, minutes, now, io)
    ensures task == if c.RedisClient? then Some(RedisCache.Delivered(io) == Some(true)) else None
  {
    match c
    case MemoryClient(m) =>
      ok := m.Set(key, v, minutes, now);
      task := None;
    case NoneClient(n) =>
      ok := n.Set(key, v, minutes);
      task := None;
    case RedisClient(r) =>
      ok, task := r.SetWithTask(key, v, minutes, now, io);
  }

  method Set(c: Client, key: string, v: Value, minutes: int, now: int, io: RedisCache.RedisIo) returns (ok: bool)
    requires Valid(c) && key != "" && minutes > 0
    modifies Repr(c)
    ensures Valid(c)
    ensures (Snapshot(c), ok) == SnapSet(old(Snapshot(c)), key, v, minutes, now, io)
  {
    var task;
    ok, task := SetWithTask(c, key, v, minutes, now, io);
  }

  /** Add<T>(key, value, minutes, out task). */
  method AddWithTask(c: Client, key: string, v: Value, minutes: int, now: int, io: RedisCache.RedisIo)
    returns (added: bool, task: Option<bool>)
    requires Valid(c) && key != "" && minutes > 0 && (c.MemoryClient? ==> v != Null)
    modifies Repr(c)
    ensures Valid(c)
    ensures (Snapshot(c), added) == SnapAdd(old(Snapshot(c)), key, v, minutes, now, io)
    ensures task == if c.RedisClient? then Some(RedisCache.Delivered(io) == Some(true)) else None
  {
    match c
    case MemoryClient(m) =>
      added := m.Add(key, v, minutes, now);
      task := None;
    case NoneClient(n) =>
      added := n.Add(key, v, minutes);
      task := None;
    case RedisClient(r) =>
      added, task := r.AddWithTask(key, v, minutes, now, io);
  }

  method Add(c: Client, key: string, v: Value, minutes: int, now: int, io: RedisCache.RedisIo) returns (added: bool)
    requires Valid(c) && key != "" && minutes > 0 && (c.MemoryClient? ==> v != Null)
    modifies Repr(c)
    ensures Valid(c)
    ensures (Snapshot(c), added) == SnapAdd(old(Snapshot(c)), key, v, minutes, now, io)
  {
    var task;
    added, task := AddWithTask(c, key, v, minutes, now, io);
  }

  /** Set<T>(key, value): DefaultCacheMinutes. */
  method SetForDefaultMinutes(c: Client, key: string, v: Value, now: int, io: RedisCache.RedisIo) returns (ok: bool)
    requires Valid(c) && key != ""
    modifies Repr(c)
    ensures Valid(c)
    ensures (Snapshot(c), ok) == SnapSet(old(Snapshot(c)), key, v, DefaultCacheMinutes, now, io)
  {
    ok := Set(c, key, v, DefaultCacheMinutes, now, io);
  }

  /** Add<T>(key, value): DefaultCacheMinutes. */
  method AddForDefaultMinutes(c: Client, key: string, v: Value, now: int, io: RedisCache.RedisIo) returns (added: bool)
    requires Valid(c) && key != "" && (c.MemoryClient? ==> v != Null)
    modifies Repr(c)
    ensures Valid(c)
    ensures (Snapshot(c), added) == SnapAdd(old(Snapshot(c)), key, v, DefaultCacheMinutes, now, io)
  {
    added := Add(c, key, v, DefaultCacheMinutes, now, io);
  }

  /** Set<T>(key, value, out task): DefaultCacheMinutes. */
  method SetWithTaskForDefaultMinutes(c: Client, key: string, v: Value, now: int, io: RedisCache.RedisIo)
    returns (ok: bool, task: Option<bool>)
    requires Valid(c) && key != ""
    modifies Repr(c)
    ensures Valid(c)
    ensures (Snapshot(c), ok) == SnapSet(old(Snapshot(c)), key, v, DefaultCacheMinutes, now, io)
    ensures task == if c.RedisClient? then Some(RedisCache.Delivered(io) == Some(true)) else None
  {
    ok, task := SetWithTask(c, key, v, DefaultCacheMinutes, now, io);
  }

  /** Add<T>(key, value, out task): DefaultCacheMinutes. */
  method AddWithTaskForDefaultMinutes(c: Client, key: string, v: Value, now: int, io: RedisCache.RedisIo)
    returns (added: bool, task: Option<bool>)
    requires Valid(c) && key != "" && (c.MemoryClient? ==> v != Null)
    modifies Repr(c)
    ensures Valid(c)
    ensures (Snapshot(c), added) == SnapAdd(old(Snapshot(c)), key, v, DefaultCacheMinutes, now, io)
    ensures task == if c.RedisClient? then Some(RedisCache.Delivered(io) == Some(true)) else None
  {
    added, task := AddWithTask(c, key, v, DefaultCacheMinutes, now, io);
  }

  /** FlushAll(out task). */
  method FlushAllWithTask(c: Client, now: int, io: RedisCache.RedisIo) returns (task: Option<bool>)
    requires Valid(c)
    modifies Repr(c)
    ensures Valid(c)
    ensures Snapshot(c) == SnapFlushAll(old(Snapshot(c)), now, io)
    ensures task == if c.RedisClient? then Some(RedisCache.Delivered(io) == Some(true)) else None
  {
    match c
    case MemoryClient(m) =>
      m.FlushAll();
      task := None;
    case NoneClient(n) =>
      n.FlushAll();
      task := None;
    case RedisClient(r) =>
      task := r.FlushAllWithTask(now, io);
  }

  method FlushAll(c: Client, now: int, io: RedisCache.RedisIo)
    requires Valid(c)
    modifies Repr(c)
    ensures Valid(c)
    ensures Snapshot(c) == SnapFlushAll(old(Snapshot(c)), now, io)
  {
    var task := FlushAllWithTask(c, now, io);
  }

  /** SetKeyAsExtending: Set(key + marker suffix, 1, SlidingTimeToLive). */
  method SetKeyAsExtending(c: Client, key: string, now: int, io: RedisCache.RedisIo) returns (ok: bool)
    requires Valid(c) && key != "" && Snapshot(c).slidingTimeToLive > 0
    modifies Repr(c)
    ensures Valid(c)
    ensures (Snapshot(c), ok) == SnapSet(old(Snapshot(c)), key + CacheKeyIsExtendingSuffix, One, old(Snapshot(c)).slidingTimeToLive, now, io)
  {
    var stt := match c case MemoryClient(m) => m.slidingTimeToLive
                       case NoneClient(n) => n.slidingTimeToLive
                       case RedisClient(r) => r.slidingTimeToLive;
    ok := Set(c, key + CacheKeyIsExtendingSuffix, One, stt, now, io);
  }

  /** The SlidingTimeToLive setter. */
  method SetSlidingTimeToLive(c: Client, minutes: int)
    requires Valid(c)
    modifies Owner(c)
    ensures Valid(c)
    ensures Snapshot(c) == old(Snapshot(c)).(slidingTimeToLive := minutes)
  {
    match c
    case MemoryClient(m) => m.slidingTimeToLive := minutes;
    case NoneClient(n) => n.slidingTimeToLive := minutes;
    case RedisClient(r) => r.slidingTimeToLive := minutes;
  }

  /** Dispose: marks the client disposed; a second call does nothing. */
  method Dispose(c: Client)
    modifies Owner(c)
    ensures Snapshot(c) == old(Snapshot(c))
    ensures match c
            case MemoryClient(m) => m.isDisposed
            case NoneClient(n) => n.isDisposed
            case RedisClient(r) => r.isDisposed
  {
    match c
    case MemoryClient(m) =>
      if !m.isDisposed {
        m.isDisposed := true;
      }
    case NoneClient(n) =>
      if !n.isDisposed {
        n.isDisposed := true;
      }
    case RedisClient(r) =>
      r.Dispose();
  }
}
